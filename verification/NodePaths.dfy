/** The relative paths by which generated files load each other. */
module NodePaths {
  import opened TextReplace

  // ----- the code

  const GOOGLE := "google/protobuf"

  function Slashes(s: string): nat {
    if s == "" then 0 else (if s[0] == '/' then 1 else 0) + Slashes(s[1..])
  }

  function Ups(n: nat): string {
    if n == 0 then "" else "../" + Ups(n - 1)
  }

  lemma {:induction false} UpsNext(n: nat)
    ensures Ups(n) + "../" == Ups(n + 1)
  {
    if n == 0 {
      assert Ups(1) == "../" + Ups(0);
    } else {
      UpsNext(n - 1);
      assert Ups(n) + "../" == "../" + (Ups(n - 1) + "../");
    }
  }

  method Count(s: string) returns (slashes: nat)
    ensures slashes == Slashes(s)
  {
    slashes := 0;
    for i := 0 to |s|
      invariant slashes + Slashes(s[i..]) == Slashes(s)
    {
      assert s[i..][0] == s[i] && s[i..][1..] == s[i + 1..];
      if s[i] == '/' {
        slashes := slashes + 1;
      }
    }
  }

  function RootPath(from: string, to: string): string {
    if GOOGLE <= to then "google-protobuf/" else if Slashes(from) == 0 then "./" else Ups(Slashes(from))
  }

  method GetRootPath(from: string, to: string) returns (result: string)
    ensures result == RootPath(from, to)
  {
    var k := Find(to, GOOGLE, 0);
    assert GOOGLE <= to <==> OccursAt(to, GOOGLE, 0);
    if k == 0 {
      return "google-protobuf/";
    }
    var slashes := Count(from);
    if slashes == 0 {
      return "./";
    }
    result := "";
    for i := 0 to slashes
      invariant result == Ups(i)
    {
      UpsNext(i);
      result := result + "../";
    }
  }

  function RelativePath(from: string, to: string): string {
    RootPath(from, to) + to
  }

  method GetRelativePath(from: string, to: string) returns (path: string)
    ensures path == RelativePath(from, to)
  {
    var root := GetRootPath(from, to);
    path := root + to;
  }

  function JsMessageFilename(filename: string): string {
    ProtoStripped(filename) + "_pb.js"
  }

  // ----- what a path means to the program that loads it

  function Components(path: string): (cs: seq<string>)
    ensures |cs| == Slashes(path) + 1
  {
    if path == "" then [""]
    else
      var rest := Components(path[1..]);
      if path[0] == '/' then [""] + rest else [[path[0]] + rest[0]] + rest[1..]
  }

  /** Cutting a path into its components loses nothing. */
  lemma {:induction false} ComponentsJoin(path: string)
    ensures Join(Components(path), "/") == path
  {
    if path != "" {
      var rest := Components(path[1..]);
      ComponentsJoin(path[1..]);
      assert path == [path[0]] + path[1..];
      if path[0] == '/' {
        assert Components(path)[1..] == rest;
      } else {
        assert Components(path)[1..] == rest[1..];
      }
    }
  }

  lemma {:induction false} ComponentsConcat(a: string, b: string)
    ensures Components(a + "/" + b) == Components(a) + Components(b)
  {
    var path := a + "/" + b;
    if a == "" {
      assert path[1..] == b;
    } else {
      assert path[1..] == a[1..] + "/" + b;
      ComponentsConcat(a[1..], b);
    }
  }

  lemma {:induction false} NoSlash(s: string)
    requires '/' !in s
    ensures Components(s) == [s]
  {
    if s != "" {
      assert s[0] in s;
      NoSlash(s[1..]);
      assert s == [s[0]] + s[1..];
    }
  }

  /** A path followed from a directory. */
  function Resolve(dir: seq<string>, cs: seq<string>): seq<string>
    decreases |cs|
  {
    if cs == [] then dir
    else if cs[0] == "" || cs[0] == "." then Resolve(dir, cs[1..])
    else if cs[0] == ".." then Resolve(if dir == [] then [] else dir[..|dir| - 1], cs[1..])
    else Resolve(dir + [cs[0]], cs[1..])
  }

  predicate Clean(cs: seq<string>) {
    forall i :: 0 <= i < |cs| ==> cs[i] != "" && cs[i] != "." && cs[i] != ".."
  }

  lemma {:induction false} ResolveClean(dir: seq<string>, cs: seq<string>)
    requires Clean(cs)
    ensures Resolve(dir, cs) == dir + cs
    decreases |cs|
  {
    if cs != [] {
      assert cs[0] != "";
      ResolveClean(dir + [cs[0]], cs[1..]);
    }
  }

  function Above(dir: seq<string>, n: nat): seq<string> {
    if n <= |dir| then dir[..|dir| - n] else []
  }

  /** `n` steps up leave the directory `n` levels above, or the top. */
  lemma {:induction false} ResolveUps(dir: seq<string>, n: nat, to: string)
    ensures Resolve(dir, Components(Ups(n) + to)) == Resolve(Above(dir, n), Components(to))
    decreases n
  {
    if n == 0 {
      assert Ups(0) + to == to;
      assert dir[..|dir|] == dir;
    } else {
      UpOnce(dir, Ups(n - 1) + to);
      assert Ups(n) + to == "../" + (Ups(n - 1) + to);
      ResolveUps(Above(dir, 1), n - 1, to);
      AboveTwice(dir, n);
    }
  }

  lemma UpOnce(dir: seq<string>, rest: string)
    ensures Resolve(dir, Components("../" + rest)) == Resolve(Above(dir, 1), Components(rest))
  {
    assert "../" + rest == ".." + "/" + rest;
    ComponentsConcat("..", rest);
    NoSlash("..");
    assert ([".."] + Components(rest))[1..] == Components(rest);
  }

  lemma AboveTwice(dir: seq<string>, n: nat)
    requires n > 0
    ensures Above(Above(dir, 1), n - 1) == Above(dir, n)
  {
  }

  /** Only clean components lead down a level each. */
  lemma {:induction false} ResolveDepth(dir: seq<string>, cs: seq<string>)
    ensures |Resolve(dir, cs)| <= |dir| + |cs|
    ensures |Resolve(dir, cs)| == |dir| + |cs| ==> Clean(cs)
    decreases |cs|
  {
    if cs != [] {
      var next := if cs[0] == "" || cs[0] == "." then dir else if cs[0] == ".." then Above(dir, 1) else dir + [cs[0]];
      ResolveDepth(next, cs[1..]);
      assert Clean(cs[1..]) && |next| == |dir| + 1 ==> Clean(cs) by {
        assert forall i :: 0 < i < |cs| ==> cs[i] == cs[1..][i - 1];
      }
    }
  }

  lemma ResolveHere(dir: seq<string>, to: string)
    ensures Resolve(dir, Components("./" + to)) == Resolve(dir, Components(to))
  {
    assert "./" + to == "." + "/" + to;
    ComponentsConcat(".", to);
    NoSlash(".");
    assert (["."] + Components(to))[1..] == Components(to);
  }

  /** What `require` loads: a file found from the directory of the requiring file, or a package. */
  datatype Loaded = File(place: seq<string>) | Package(name: string)

  function Require(dir: seq<string>, request: string): Loaded {
    if "./" <= request || "../" <= request then File(Resolve(dir, Components(request))) else Package(request)
  }

  /** The directories named in the path of a file. */
  function Directories(file: string): seq<string> {
    Components(file)[..Slashes(file)]
  }

  /** The directory of a file whose path is relative to `root`. */
  function Directory(root: seq<string>, file: string): seq<string> {
    Resolve(root, Directories(file))
  }

  /** As many steps up as the requiring file's path has slashes, then down to the target. */
  lemma LoadsFromAbove(root: seq<string>, from: string, to: string)
    requires !(GOOGLE <= to)
    ensures Require(Directory(root, from), RelativePath(from, to)) ==
            File(Resolve(Above(Directory(root, from), Slashes(from)), Components(to)))
  {
    var dir, n := Directory(root, from), Slashes(from);
    if n == 0 {
      assert "./" <= "./" + to;
      ResolveHere(dir, to);
      assert Above(dir, 0) == dir;
    } else {
      assert "../" <= Ups(n) + to by { assert Ups(n) == "../" + Ups(n - 1); }
      ResolveUps(dir, n, to);
    }
  }

  lemma LoadsPackage(dir: seq<string>, from: string, to: string)
    requires GOOGLE <= to
    ensures Require(dir, RelativePath(from, to)) == Package("google-protobuf/" + to)
  {
    assert ("google-protobuf/" + to)[0] == 'g';
  }

  /** The steps up end at the root exactly when the tree is installed at the top or every directory in the requiring
      file's path leads down. */
  lemma BackAtRoot(root: seq<string>, from: string)
    ensures root == [] || Clean(Directories(from)) ==> Above(Directory(root, from), Slashes(from)) == root
    ensures root != [] && !Clean(Directories(from)) ==> |Above(Directory(root, from), Slashes(from))| < |root|
  {
    ResolveDepth(root, Directories(from));
    if Clean(Directories(from)) {
      ResolveClean(root, Directories(from));
    }
  }

  /** Main result: the path leads from one file of an installed tree to exactly the other one if and only if the
      name of the second does not begin like a well-known type, and the directories in the path of the first are clean
      or the tree is installed at the top, where further steps up lead nowhere.  Names that do begin like that come
      from the package. */
  lemma RelativePathLeadsThere(root: seq<string>, from: string, to: string)
    requires Clean(Components(to))
    ensures Require(Directory(root, from), RelativePath(from, to)) == File(root + Components(to)) <==>
            !(GOOGLE <= to) && (root == [] || Clean(Directories(from)))
    ensures GOOGLE <= to ==> Require(Directory(root, from), RelativePath(from, to)) == Package("google-protobuf/" + to)
  {
    if GOOGLE <= to {
      LoadsPackage(Directory(root, from), from, to);
    } else {
      LoadsFromAbove(root, from, to);
      BackAtRoot(root, from);
      ResolveClean(Above(Directory(root, from), Slashes(from)), Components(to));
    }
  }

  predicate Below(a: string, b: string, path: string) {
    var cs := Components(path);
    |cs| > 2 && cs[0] == a && cs[1] == b
  }

  lemma BelowIfText(a: string, b: string, rest: string)
    requires '/' !in a && '/' !in b
    ensures Below(a, b, a + "/" + (b + "/" + rest))
  {
    ComponentsConcat(a, b + "/" + rest);
    ComponentsConcat(b, rest);
    NoSlash(a);
    NoSlash(b);
  }

  lemma TextIfBelow(a: string, b: string, path: string)
    requires Below(a, b, path)
    ensures a + "/" + (b + "/") <= path
  {
    var cs := Components(path);
    ComponentsJoin(path);
    var rest := Join(cs[1..][1..], "/");
    assert Join(cs[1..], "/") == b + "/" + rest;
    assert path == a + "/" + (b + "/") + rest;
  }

  /** A file is below two nested directories exactly when its path begins with them and their slashes. */
  lemma BelowByText(a: string, b: string, path: string)
    requires '/' !in a && '/' !in b
    ensures Below(a, b, path) <==> a + "/" + (b + "/") <= path
  {
    var start := a + "/" + (b + "/");
    if Below(a, b, path) {
      TextIfBelow(a, b, path);
    } else if start <= path {
      var rest := path[|start|..];
      assert path == a + "/" + (b + "/" + rest);
      BelowIfText(a, b, rest);
    }
  }

  /** The test is on the text, not on directories: it takes every file in the directory of the well-known types, and
      also every file outside it whose path merely begins in the same way. */
  lemma WellKnownTypes(path: string)
    ensures Below("google", "protobuf", path) ==> GOOGLE <= path
    ensures GOOGLE <= path ==> (Below("google", "protobuf", path) <==> |path| > |GOOGLE| && path[|GOOGLE|] == '/')
  {
    BelowByText("google", "protobuf", path);
    assert "google" + "/" + ("protobuf" + "/") == GOOGLE + "/";
    assert GOOGLE + "/" <= path <==> GOOGLE <= path && |path| > |GOOGLE| && path[|GOOGLE|] == '/';
  }
}
