/**
  Canonical repository paths: the path functions of `implementer.py`.

  Unicode normalisation followed by case folding is a parameter `fold`, of which only
  its effect on the `/` structure of a path is used.
 */
module RepositoryPaths {
  import opened Wrappers

  /** `fold` acts segment by segment, never empties a segment, and fixes runs of `a`. */
  ghost predicate KeepsStructure(fold: string -> string) {
    && (forall x: string, y: string :: fold(x + "/" + y) == fold(x) + "/" + fold(y))
    && (forall x: string :: x != "" && '/' !in x ==> fold(x) != "" && '/' !in fold(x))
    && (forall n: nat :: fold(FreshName(n)) == FreshName(n))
  }

  function SameString(s: string): string {
    s
  }

  type Folding = f: string -> string | KeepsStructure(f) witness SameString

  function FreshName(n: nat): string {
    seq(n, _ => 'a')
  }

  predicate StartsWith(s: string, prefix: string) {
    prefix <= s
  }

  predicate IsDirectory(path: string) {
    path != "" && path[|path| - 1] == '/'
  }

  /** The characters removed by `str.strip()`. */
  predicate IsSpace(c: char) {
    var code := c as int;
    || 0x09 <= code <= 0x0d || 0x1c <= code <= 0x20 || code == 0x85 || code == 0xa0
    || code == 0x1680 || 0x2000 <= code <= 0x200a || code == 0x2028 || code == 0x2029
    || code == 0x202f || code == 0x205f || code == 0x3000
  }

  /** `path.strip() == path` for a non-empty path. */
  predicate Stripped(path: string)
    requires path != ""
  {
    !IsSpace(path[0]) && !IsSpace(path[|path| - 1])
  }

  predicate IsLetter(c: char) {
    'A' <= c <= 'Z' || 'a' <= c <= 'z'
  }

  predicate DriveQualified(path: string) {
    |path| >= 2 && IsLetter(path[0]) && path[1] == ':'
  }

  function Split(s: string): (parts: seq<string>)
    ensures parts != []
  {
    if s == "" then [""]
    else
      var rest := Split(s[1..]);
      if s[0] == '/' then [""] + rest else [[s[0]] + rest[0]] + rest[1..]
  }

  predicate PlainSegment(part: string) {
    part != "" && part != "." && part != ".."
  }

  /** `_normalize_path`; `None` stands for every `ImplementerInputError`. */
  function NormalizePath(fold: string -> string, path: string, allowDirectory: bool): Option<string> {
    if path == "" || !Stripped(path) then None
    else if '\\' in path || path[0] == '/' || DriveQualified(path) then None
    else
      var directory := IsDirectory(path);
      if directory && !allowDirectory then None
      else
        var value := if directory then path[..|path| - 1] else path;
        if value == "" || exists part | part in Split(value) :: !PlainSegment(part) then None
        else Some(if directory then fold(value) + "/" else fold(value))
  }

  /** `_scope_matches` once its scope argument is canonical. */
  predicate Covers(scope: string, file: string) {
    if IsDirectory(scope) then StartsWith(file, scope) else file == scope
  }

  /** A canonical path of a file: what a Git diff entry is normalised to. */
  ghost predicate FilePath(fold: string -> string, file: string) {
    exists raw :: NormalizePath(fold, raw, false) == Some(file)
  }

  /** A canonical path of a scope declaration: a file or a directory. */
  ghost predicate ScopePath(fold: string -> string, region: string) {
    exists raw :: NormalizePath(fold, raw, true) == Some(region)
  }

  // ---------- what is accepted ----------

  /** Walking a tree by segments: `None` when the walk leaves the directory it set out from. */
  function Walk(at: seq<string>, parts: seq<string>): Option<seq<string>>
    decreases |parts|
  {
    if parts == [] then Some(at)
    else if parts[0] == "" || parts[0] == "." then Walk(at, parts[1..])
    else if parts[0] == ".." then if at == [] then None else Walk(at[..|at| - 1], parts[1..])
    else Walk(at + [parts[0]], parts[1..])
  }

  /** A walk that goes one step down for every segment has met plain segments only. */
  lemma {:induction false} WalkLosesSteps(at: seq<string>, parts: seq<string>)
    ensures Walk(at, parts).Some? ==> |Walk(at, parts).value| <= |at| + |parts|
    ensures Walk(at, parts).Some? && |Walk(at, parts).value| == |at| + |parts| ==> forall part :: part in parts ==> PlainSegment(part)
    ensures (forall part :: part in parts ==> PlainSegment(part)) ==> Walk(at, parts) == Some(at + parts)
    decreases |parts|
  {
    if parts != [] {
      assert parts == [parts[0]] + parts[1..] && parts[0] in parts;
      if parts[0] == "" || parts[0] == "." {
        WalkLosesSteps(at, parts[1..]);
      } else if parts[0] == ".." {
        if at != [] {
          WalkLosesSteps(at[..|at| - 1], parts[1..]);
        }
      } else {
        WalkLosesSteps(at + [parts[0]], parts[1..]);
        assert at + [parts[0]] + parts[1..] == at + parts;
      }
    } else {
      assert at + parts == at;
    }
  }

  function WithoutSlash(path: string): string {
    if IsDirectory(path) then path[..|path| - 1] else path
  }

  /**
    A path is accepted if and only if it is clean text and walking it inside the repository goes down
    to exactly what it names, segment by segment: it neither leaves the repository nor has an alias.
   */
  lemma AcceptedExactlyWhen(fold: Folding, path: string, allowDirectory: bool)
    ensures NormalizePath(fold, path, allowDirectory).Some? <==>
      && path != "" && Stripped(path) && '\\' !in path && !DriveQualified(path) && (IsDirectory(path) ==> allowDirectory)
      && Walk([], Split(WithoutSlash(path))) == Some(Split(WithoutSlash(path)))
  {
    var parts := Split(WithoutSlash(path));
    WalkLosesSteps([], parts);
    assert [] + parts == parts;
    if path != "" && path[0] == '/' {
      assert parts[0] == "";
      assert !PlainSegment(parts[0]);
    }
    if WithoutSlash(path) == "" {
      assert parts[0] == "";
      assert !PlainSegment(parts[0]);
    }
  }

  // ---------- folding and splitting ----------

  lemma {:induction false} FoldEndsInSegment(fold: Folding, value: string)
    requires value != "" && !IsDirectory(value)
    ensures fold(value) != "" && !IsDirectory(fold(value))
  {
    if '/' in value {
      var i := LastSlash(value);
      assert value == value[..i] + "/" + value[i + 1..];
      assert fold(value) == fold(value[..i]) + "/" + fold(value[i + 1..]);
      var tail := fold(value[i + 1..]);
      assert tail[|tail| - 1] in tail;
    } else {
      var whole := fold(value);
      assert whole[|whole| - 1] in whole;
    }
  }

  lemma {:induction false} LastSlash(value: string) returns (i: nat)
    requires '/' in value
    ensures i < |value| && value[i] == '/' && '/' !in value[i + 1..]
  {
    var last := |value| - 1;
    if value[last] == '/' {
      i := last;
    } else {
      var front := value[..last];
      assert value == front + [value[last]];
      i := LastSlash(front);
      assert value[i + 1..] == front[i + 1..] + [value[last]];
    }
  }

  lemma {:induction false} SplitJoin(a: string, b: string)
    ensures Split(a + "/" + b) == Split(a) + Split(b)
  {
    var whole := a + "/" + b;
    if a == "" {
      assert whole[1..] == b;
    } else {
      var rest := Split(a[1..]);
      assert whole[1..] == a[1..] + "/" + b && whole[0] == a[0];
      SplitJoin(a[1..], b);
      SplitStep(whole, rest + Split(b));
      SplitStep(a, rest);
      hide Split;
      StepAppends(a[0], rest, Split(b));
    }
  }

  lemma StepAppends(c: char, rest: seq<string>, more: seq<string>)
    requires rest != []
    ensures [""] + (rest + more) == ([""] + rest) + more
    ensures [[c] + (rest + more)[0]] + (rest + more)[1..] == ([[c] + rest[0]] + rest[1..]) + more
  {
    assert (rest + more)[1..] == rest[1..] + more;
  }

  lemma SplitStep(s: string, rest: seq<string>)
    requires s != "" && rest == Split(s[1..])
    ensures Split(s) == if s[0] == '/' then [""] + rest else [[s[0]] + rest[0]] + rest[1..]
  {
  }

  lemma {:induction false} SplitSegment(s: string)
    requires '/' !in s
    ensures Split(s) == [s]
  {
    if s != "" {
      SplitSegment(s[1..]);
      assert [s[0]] + s[1..] == s;
    }
  }

  /** A region that is canonical and no directory is itself the path of a file. */
  lemma FileRegionIsFilePath(fold: Folding, region: string)
    requires ScopePath(fold, region) && !IsDirectory(region)
    ensures FilePath(fold, region)
  {
    var raw :| NormalizePath(fold, raw, true) == Some(region);
    assert NormalizePath(fold, raw, false) == Some(region);
  }

  /** Accepted paths have one canonical form exactly when they are of one kind and folding makes them equal. */
  lemma SamePathExactlyWhen(fold: Folding, path: string, other: string)
    requires NormalizePath(fold, path, true).Some? && NormalizePath(fold, other, true).Some?
    ensures NormalizePath(fold, path, true) == NormalizePath(fold, other, true)
      <==> (IsDirectory(path) <==> IsDirectory(other)) && fold(WithoutSlash(path)) == fold(WithoutSlash(other))
  {
    hide Split;
    var a, b := NormalizePath(fold, path, true).value, NormalizePath(fold, other, true).value;
    if !IsDirectory(path) {
      FoldEndsInSegment(fold, path);
    }
    if !IsDirectory(other) {
      FoldEndsInSegment(fold, other);
    }
    if IsDirectory(path) && IsDirectory(other) && a == b {
      assert fold(WithoutSlash(path)) == a[..|a| - 1] == b[..|b| - 1] == fold(WithoutSlash(other));
    }
  }

  lemma DirectoryIsDeclaredAsOne(fold: Folding, raw: string, region: string)
    requires NormalizePath(fold, raw, true) == Some(region) && IsDirectory(region)
    ensures IsDirectory(raw) && region == fold(raw[..|raw| - 1]) + "/"
  {
    hide Split;
    if !IsDirectory(raw) {
      FoldEndsInSegment(fold, raw);
      assert false;
    }
  }

  /** Every canonical directory contains files with arbitrarily long fresh names. */
  lemma FreshFileInside(fold: Folding, region: string, n: nat)
    requires ScopePath(fold, region) && IsDirectory(region) && n > 2
    ensures FilePath(fold, region + FreshName(n))
  {
    var raw :| NormalizePath(fold, raw, true) == Some(region);
    hide NormalizePath;
    DirectoryIsDeclaredAsOne(fold, raw, region);
    var value := raw[..|raw| - 1];
    var name := FreshName(n);
    assert raw == value + "/";
    FreshFileNormalizes(fold, value, name, raw + name);
    assert region + name == fold(value) + "/" + name;
  }

  lemma FreshFileNormalizes(fold: Folding, value: string, name: string, file: string)
    requires NormalizePath(fold, value + "/", true).Some?
    requires file == value + "/" + name && |name| > 2 && name == FreshName(|name|)
    ensures NormalizePath(fold, file, false) == Some(fold(value) + "/" + name)
  {
    var raw := value + "/";
    assert raw[..|raw| - 1] == value;
    assert '\\' !in file by {
      assert forall c | c in file :: c in raw || c == 'a';
    }
    assert file[0] == raw[0] && file[1] == raw[1] && file[|file| - 1] == 'a';
    assert fold(name) == name;
    SplitJoin(value, name);
    SplitSegment(name);
    assert PlainSegment(name);
  }
}
