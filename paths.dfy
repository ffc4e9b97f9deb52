/**
 * Lexical path confinement under the base directory `/data`: POSIX
 * `os.path.join`, `posixpath.normpath`, and the `startswith(BASE_DIR)` test
 * that every file tool and `run_command`'s `cwd` go through.
 */
module Paths {
  import opened Wrappers
  import opened PyText

  /** The directory every operation is confined to. */
  const BaseDir: string := "/data"

  /** `posixpath.join(a, b)`: an absolute `b` replaces `a`; otherwise a `/` goes between them when needed. */
  function PathJoin(a: string, b: string): (r: string)
    ensures |b| > 0 && b[0] == '/' ==> r == b
    ensures !(|b| > 0 && b[0] == '/') ==> a <= r && |b| <= |r| && r[|r| - |b|..] == b
    ensures !(|b| > 0 && b[0] == '/') && a != [] && a[|a| - 1] != '/' ==> |r| == |a| + 1 + |b| && r[|a|] == '/'
    ensures !(|b| > 0 && b[0] == '/') && (a == [] || a[|a| - 1] == '/') ==> |r| == |a| + |b|
  {
    if |b| > 0 && b[0] == '/' then b
    else if a == [] || a[|a| - 1] == '/' then a + b
    else a + "/" + b
  }

  /**
   * How many leading slashes normalisation keeps: POSIX gives exactly two
   * leading slashes a meaning of their own, so `//x` keeps both, while one
   * or three and more collapse to one.
   */
  function RootSlashes(path: string): nat
  {
    if |path| >= 1 && path[0] == '/' then
      if |path| >= 2 && path[1] == '/' && !(|path| >= 3 && path[2] == '/') then 2 else 1
    else 0
  }

  function Slashes(k: nat): string
  {
    if k == 0 then "" else if k == 1 then "/" else "//"
  }

  /**
   * One path component of normalisation: empty and `.` components vanish;
   * `..` removes the preceding real component; a `..` with nothing to remove
   * is kept on a relative path and dropped on a rooted one.
   */
  function Step(stack: seq<string>, comp: string, rooted: bool): seq<string>
  {
    if comp == "" || comp == "." then stack
    else if comp != ".." || (!rooted && stack == []) || (stack != [] && stack[|stack| - 1] == "..") then
      stack + [comp]
    else if stack != [] then stack[..|stack| - 1]
    else stack
  }

  /** Normalisation of the components `comps`, left to right, onto `stack`. */
  function Resolve(stack: seq<string>, comps: seq<string>, rooted: bool): seq<string>
    decreases |comps|
  {
    if comps == [] then stack
    else Resolve(Step(stack, comps[0], rooted), comps[1..], rooted)
  }

  /** The components that remain after normalising `path`. */
  function Components(path: string): seq<string>
  {
    Resolve([], Split(path, '/'), RootSlashes(path) > 0)
  }

  /** `posixpath.normpath(path)`: purely lexical, the file system is not consulted. */
  function NormPath(path: string): (r: string)
    ensures r != []
  {
    if path == [] then "."
    else
      var r := Slashes(RootSlashes(path)) + Join(Components(path), '/');
      if r == [] then "." else r
  }

  /**
   * The confinement test as the source writes it: join onto the base
   * directory, normalise, and accept when the result, as a string, starts
   * with `/data`. The accepted normalised path is the result.
   */
  function Confine(p: string): Option<string>
  {
    var candidate := NormPath(PathJoin(BaseDir, p));
    if BaseDir <= candidate then Some(candidate) else None
  }

  // ---------------------------------------------------------------------
  // The shape of normalised paths
  // ---------------------------------------------------------------------

  /**
   * A normalised component list: no empty, `.` or slash-bearing component;
   * no `..` at all under a root; on a relative path `..` only as a leading run.
   */
  ghost predicate Clean(stack: seq<string>, rooted: bool)
  {
    && (forall i :: 0 <= i < |stack| ==> stack[i] != "" && stack[i] != "." && '/' !in stack[i])
    && (rooted ==> forall i :: 0 <= i < |stack| ==> stack[i] != "..")
    && (forall i, j :: 0 <= i < j < |stack| && stack[j] == ".." ==> stack[i] == "..")
  }

  lemma StepClean(stack: seq<string>, comp: string, rooted: bool)
    requires Clean(stack, rooted) && '/' !in comp
    ensures Clean(Step(stack, comp, rooted), rooted)
  {
  }

  lemma {:induction false} ResolveClean(stack: seq<string>, comps: seq<string>, rooted: bool)
    requires Clean(stack, rooted)
    requires forall i :: 0 <= i < |comps| ==> '/' !in comps[i]
    ensures Clean(Resolve(stack, comps, rooted), rooted)
    decreases |comps|
  {
    if comps != [] {
      StepClean(stack, comps[0], rooted);
      ResolveClean(Step(stack, comps[0], rooted), comps[1..], rooted);
    }
  }

  /** Whatever the input, normalisation leaves a clean component list. */
  lemma ComponentsClean(path: string)
    ensures Clean(Components(path), RootSlashes(path) > 0)
  {
    ResolveClean([], Split(path, '/'), RootSlashes(path) > 0);
  }

  /** Resolving components that are already clean appends them unchanged. */
  lemma {:induction false} ResolveCleanIdentity(acc: seq<string>, comps: seq<string>, rooted: bool)
    requires Clean(acc + comps, rooted)
    ensures Resolve(acc, comps, rooted) == acc + comps
    decreases |comps|
  {
    if comps != [] {
      var c := comps[0];
      assert (acc + comps)[|acc|] == c;
      if c == ".." && acc != [] {
        assert (acc + comps)[|acc| - 1] == acc[|acc| - 1];
      }
      assert Step(acc, c, rooted) == acc + [c];
      assert acc + [c] + comps[1..] == acc + comps;
      ResolveCleanIdentity(acc + [c], comps[1..], rooted);
    }
  }

  /** An empty component is skipped. */
  lemma ResolveSkipEmpty(acc: seq<string>, comps: seq<string>, rooted: bool)
    ensures Resolve(acc, [[]] + comps, rooted) == Resolve(acc, comps, rooted)
  {
    assert ([[]] + comps)[1..] == comps;
  }

  /** The leading slashes of a rooted path contribute only empty, skipped components. */
  lemma {:induction false} ResolveAfterSlashes(k: nat, body: string)
    requires 1 <= k <= 2
    ensures Resolve([], Split(Slashes(k) + body, '/'), true) == Resolve([], Split(body, '/'), true)
  {
    var rest := if k == 1 then body else Slashes(1) + body;
    assert Slashes(k) + body == [] + ['/'] + rest;
    SplitAfterPiece([], rest, '/');
    ResolveSkipEmpty([], Split(rest, '/'), true);
    if k == 2 {
      ResolveAfterSlashes(1, body);
    }
  }

  /** The root of a normalised path's text is the root it was built with. */
  lemma NormalFormRoot(k: nat, s: seq<string>)
    requires k <= 2 && Clean(s, k > 0) && (k == 0 ==> s != [])
    ensures RootSlashes(Slashes(k) + Join(s, '/')) == k
  {
    if s != [] {
      JoinHead(s, '/');
      assert Join(s, '/')[0] == s[0][0];
    }
  }

  /** The text of a normalised path, re-read, has the same root and components. */
  lemma NormalFormReread(k: nat, s: seq<string>)
    requires k <= 2 && Clean(s, k > 0) && (k == 0 ==> s != [])
    ensures RootSlashes(Slashes(k) + Join(s, '/')) == k
    ensures Components(Slashes(k) + Join(s, '/')) == s
  {
    NormalFormRoot(k, s);
    var body := Join(s, '/');
    if k > 0 {
      ResolveAfterSlashes(k, body);
    } else {
      assert Slashes(k) + body == body;
    }
    if s == [] {
      assert Split(body, '/') == [[]];
    } else {
      SplitJoin(s, '/');
      assert Clean([] + s, k > 0);
      ResolveCleanIdentity([], s, k > 0);
    }
  }

  /** `normpath` is idempotent. */
  lemma NormPathIdempotent(path: string)
    ensures NormPath(NormPath(path)) == NormPath(path)
  {
    if path == [] || NormPath(path) == "." {
      SplitNoSeparator(".", '/');
    } else {
      var k := RootSlashes(path);
      var s := Components(path);
      ComponentsClean(path);
      assert NormPath(path) == Slashes(k) + Join(s, '/');
      NormalFormReread(k, s);
    }
  }

  /** A normalised path holds no empty, `.` or (under a root) `..` component. */
  lemma NormPathClean(path: string)
    ensures Clean(Components(NormPath(path)), NormPath(path)[0] == '/')
  {
    if NormPath(path) == "." {
      SplitNoSeparator(".", '/');
      assert Components(".") == [];
    } else {
      NormPathIdempotent(path);
      var k := RootSlashes(path);
      var s := Components(path);
      ComponentsClean(path);
      NormalFormReread(k, s);
    }
  }
}

module Confinement {
  import opened Wrappers
  import opened PyText
  import opened Paths

  /** Without `..` components, resolution only appends to what is already there. */
  lemma {:induction false} ResolveKeepsPrefix(acc: seq<string>, comps: seq<string>, rooted: bool)
    requires forall i :: 0 <= i < |comps| ==> comps[i] != ".."
    ensures acc <= Resolve(acc, comps, rooted)
    decreases |comps|
  {
    if comps != [] {
      ResolveKeepsPrefix(Step(acc, comps[0], rooted), comps[1..], rooted);
    }
  }

  /** Splitting `/name/rest` for a slash-free `name`. */
  lemma SplitUnderRoot(name: string, rest: string)
    requires '/' !in name
    ensures Split("/" + name + "/" + rest, '/') == [[], name] + Split(rest, '/')
  {
    SplitAfterPiece(name, rest, '/');
    assert "/" + name + "/" + rest == [] + ['/'] + (name + ['/'] + rest);
    SplitAfterPiece([], name + ['/'] + rest, '/');
  }

  /** Resolving `/name/rest` for a real component `name`. */
  lemma ResolveUnderRoot(name: string, comps: seq<string>)
    requires name != "" && name != "." && name != ".."
    ensures Resolve([], [[], name] + comps, true) == Resolve([name], comps, true)
  {
    ResolveSkipEmpty([], [name] + comps, true);
    assert [[], name] + comps == [[]] + ([name] + comps);
    assert ([name] + comps)[0] == name && ([name] + comps)[1..] == comps;
    assert Step([], name, true) == [name];
  }

  /** A relative path, joined onto the base, is `/data` followed by its own components. */
  lemma JoinedRelative(p: string)
    requires p == [] || p[0] != '/'
    ensures RootSlashes(PathJoin(BaseDir, p)) == 1
    ensures Components(PathJoin(BaseDir, p)) == Resolve(["data"], Split(p, '/'), true)
  {
    var name := "data";
    assert PathJoin(BaseDir, p) == "/" + name + "/" + p;
    SplitUnderRoot(name, p);
    ResolveUnderRoot(name, Split(p, '/'));
  }

  /** For a relative path, confinement reduces to the components it resolves to after `data`. */
  lemma ConfineRelative(p: string)
    requires p == [] || p[0] != '/'
    ensures Confine(p) ==
      var s := Resolve(["data"], Split(p, '/'), true);
      if BaseDir <= "/" + Join(s, '/') then Some("/" + Join(s, '/')) else None
  {
    JoinedRelative(p);
  }

  /** The empty path is accepted and names the base directory itself. */
  lemma ConfineEmpty()
    ensures Confine("") == Some(BaseDir)
  {
    ConfineRelative("");
    assert Split("", '/') == [[]];
    assert Resolve(["data"], [[]], true) == ["data"];
    assert "/" + Join(["data"], '/') == BaseDir;
  }

  /**
   * A relative path with no `..` component is always accepted, and what it
   * resolves to is the base directory or lies beneath it.
   */
  lemma ConfineRelativeWithoutParent(p: string)
    requires p == [] || p[0] != '/'
    requires forall i :: 0 <= i < |Split(p, '/')| ==> Split(p, '/')[i] != ".."
    ensures Confine(p).Some?
    ensures Confine(p).value == BaseDir || BaseDir + "/" <= Confine(p).value
  {
    JoinedRelative(p);
    var s := Components(PathJoin(BaseDir, p));
    ResolveKeepsPrefix(["data"], Split(p, '/'), true);
    assert s[0] == "data";
    JoinHead(s, '/');
    var r := "/" + Join(s, '/');
    assert NormPath(PathJoin(BaseDir, p)) == r;
    if |s| == 1 {
      assert r == BaseDir;
    } else {
      assert "data/" <= Join(s, '/');
      assert BaseDir + "/" <= r;
    }
  }

  /**
   * A join starts with a non-empty slash-free word exactly when its first
   * component does, provided that component is slash-free too.
   */
  lemma JoinStartsWith(w: string, s: seq<string>)
    requires w != [] && '/' !in w
    requires |s| >= 1 ==> '/' !in s[0]
    ensures w <= Join(s, '/') <==> |s| >= 1 && w <= s[0]
  {
    if |s| >= 1 {
      JoinHead(s, '/');
      var first, text := s[0], Join(s, '/');
      if |first| >= |w| {
        assert text[..|w|] == first[..|w|];
      } else if |s| == 1 {
        assert text == first;
      } else {
        assert text[|first|] == '/';
        assert w[|first|] in w;
      }
    }
  }

  /**
   * The acceptance rule exactly: a path is accepted iff, joined onto the
   * base and normalised, it has a single leading slash and its first
   * component starts with `data`. That admits siblings such as `/database`.
   */
  lemma ConfineAcceptsIff(p: string)
    ensures Confine(p).Some? <==>
      var j := PathJoin(BaseDir, p);
      RootSlashes(j) == 1 && |Components(j)| >= 1 && "data" <= Components(j)[0]
  {
    var j := PathJoin(BaseDir, p);
    var k := RootSlashes(j);
    var s := Components(j);
    ComponentsClean(j);
    JoinStartsWith("data", s);
    var text := Slashes(k) + Join(s, '/');
    assert NormPath(j) == if text == [] then "." else text;
    if k == 1 {
      assert text[1..] == Join(s, '/');
      assert BaseDir <= text <==> "data" <= Join(s, '/');
    } else if k == 2 {
      assert text[1] == '/';
    }
  }

  /** Whatever is accepted is normalised already and starts with `/data`. */
  lemma ConfinedIsNormal(p: string)
    requires Confine(p).Some?
    ensures BaseDir <= Confine(p).value
    ensures NormPath(Confine(p).value) == Confine(p).value
  {
    NormPathIdempotent(PathJoin(BaseDir, p));
  }

  /** `../name` for a real component `name` resolves to `/name`, accepted when that starts with `/data`. */
  lemma ConfineParentThen(name: string)
    requires '/' !in name && name != "" && name != "." && name != ".."
    ensures Confine(".." + "/" + name) == if BaseDir <= "/" + name then Some("/" + name) else None
  {
    var up := "..";
    ConfineRelative(up + "/" + name);
    SplitAfterPiece(up, name, '/');
    SplitNoSeparator(name, '/');
    assert Split(up + "/" + name, '/') == [up, name];
    assert Step(["data"], up, true) == [];
    assert Resolve(["data"], [up, name], true) == Resolve([], [name], true);
    assert Step([], name, true) == [name];
    assert Resolve([], [name], true) == [name];
  }

  /** `/data` followed by a word is `/data`-prefixed exactly when the word starts with `data`. */
  lemma RootedStartsWithData(name: string)
    ensures BaseDir <= "/" + name <==> "data" <= name
  {
    assert ("/" + name)[1..] == name;
  }

  /**
   * The string-prefix test admits every sibling of the base whose name
   * starts with `data`: `../database` is accepted as `/database`, which is
   * neither `/data` nor below `/data/`.
   */
  lemma ConfineAcceptsSibling(name: string)
    requires '/' !in name && "data" <= name && name != "data"
    ensures Confine(".." + "/" + name) == Some("/" + name)
    ensures "/" + name != BaseDir && !(BaseDir + "/" <= "/" + name)
  {
    ConfineParentThen(name);
    RootedStartsWithData(name);
    assert |name| > 4 ==> name[4] in name;
    assert |name| > 4 ==> ("/" + name)[5] == name[4];
  }

  /** Leaving the base for a sibling whose name does not start with `data` is rejected. */
  lemma ConfineRejectsEscape(name: string)
    requires '/' !in name && name != "" && name != "." && name != ".."
    requires !("data" <= name)
    ensures Confine(".." + "/" + name) == None
  {
    ConfineParentThen(name);
    RootedStartsWithData(name);
  }

  /** An absolute path to a top-level name not starting with `data`, such as `/etc`, is rejected. */
  lemma ConfineRejectsAbsolute(name: string)
    requires '/' !in name && name != "" && name != "." && name != ".."
    requires !("data" <= name)
    ensures Confine("/" + name) == None
  {
    var j := PathJoin(BaseDir, "/" + name);
    assert j == [] + ['/'] + name;
    SplitAfterPiece([], name, '/');
    SplitNoSeparator(name, '/');
    assert Split(j, '/') == [[], name];
    ResolveSkipEmpty([], [name], true);
    assert Step([], name, true) == [name];
    assert Components(j) == [name];
    assert NormPath(j) == "/" + name;
    RootedStartsWithData(name);
  }

  /** The four file tools, which differ only in the wording of their rejection. */
  datatype FileTool = ListFiles | ReadFile | WriteFile | DeleteFile

  function OutsideMessage(tool: FileTool): string
  {
    if tool == ListFiles then "Error: Cannot access directories outside of the base directory."
    else "Error: Cannot access files outside of the base directory."
  }

  /**
   * The check each file tool runs before touching the file system: the
   * confined target on success, the tool's rejection text otherwise.
   */
  function GuardFileTool(tool: FileTool, path: string): (r: Result<string, string>)
    ensures var j := PathJoin(BaseDir, path);
      r.Success? <==> RootSlashes(j) == 1 && |Components(j)| >= 1 && "data" <= Components(j)[0]
    ensures r.Success? ==> BaseDir <= r.value && NormPath(r.value) == r.value
    ensures r.Failure? ==> r.error == OutsideMessage(tool)
  {
    ConfineAcceptsIff(path);
    match Confine(path)
    case Some(target) =>
      ConfinedIsNormal(path);
      Success(target)
    case None => Failure(OutsideMessage(tool))
  }
}
