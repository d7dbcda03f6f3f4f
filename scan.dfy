/** The code scanner: walk a directory tree, derive a module name for each
    Python file, and collect the public methods of its classes or its
    top-level functions. The tree is a value; importing a module and
    parsing a file are parameters. Paths use '/' as separator. */
module Scan {
  import opened Wrappers
  import opened PyText
  import opened PyValue

  // ---------------------------------------------------------------------
  // serialize_param

  /** An `inspect.Parameter`; `None` stands for `Parameter.empty`. */
  datatype Param = Param(name: string, default: Option<Value>, annotation: Option<Value>, kind: string)

  /** Its JSON form: defaults and annotations as text, or null. */
  datatype ParamInfo = ParamInfo(name: string, default: Option<string>, annotation: Option<string>, kind: string)

  /** `serialize_param(param)`; `render` is Python's `str()`. */
  function SerializeParam(p: Param, render: Value -> string): (r: ParamInfo)
    ensures r.name == p.name && r.kind == p.kind
    ensures r.default.None? <==> p.default.None?
    ensures r.annotation.None? <==> p.annotation.None?
    ensures p.default.Some? ==> r.default == Some(render(p.default.value))
    ensures p.annotation.Some? ==> r.annotation == Some(render(p.annotation.value))
  {
    ParamInfo(p.name,
              match p.default case None => None case Some(v) => Some(render(v)),
              match p.annotation case None => None case Some(v) => Some(render(v)),
              p.kind)
  }

  // ---------------------------------------------------------------------
  // os.walk

  /** A directory: its files and its named sub-directories, in listing order. */
  datatype Tree = Tree(files: seq<string>, dirs: seq<(string, Tree)>)

  /** One step of `os.walk`: the directory's path, its names below the top,
      and its files. */
  datatype Visit = Visit(path: string, comps: seq<string>, files: seq<string>)

  const ExcludeDirs: set<string> := {".venv", "__pycache__", "site-packages"}

  /** Top-down `os.walk` from `t`, which sits at `path`. With `prune`, the
      sub-directories named in `ExcludeDirs` are removed from `dirs` and so
      never entered. */
  function Walk(t: Tree, path: string, comps: seq<string>, prune: bool): (vs: seq<Visit>)
    ensures |vs| >= 1 && vs[0] == Visit(path, comps, t.files)
    decreases t, 1
  {
    [Visit(path, comps, t.files)] + WalkDirs(t, 0, path, comps, prune)
  }

  function WalkDirs(t: Tree, i: nat, path: string, comps: seq<string>, prune: bool): seq<Visit>
    requires i <= |t.dirs|
    decreases t, 0, |t.dirs| - i
  {
    if i == |t.dirs| then []
    else
      var name := t.dirs[i].0;
      assert t.dirs[i].1 < t.dirs[i];
      var rest := WalkDirs(t, i + 1, path, comps, prune);
      if prune && name in ExcludeDirs then rest
      else Walk(t.dirs[i].1, PathJoin(path, name), comps + [name], prune) + rest
  }

  /** No directory entered by a pruned walk has an excluded name on its way
      down from the top. */
  lemma {:induction false} PrunedWalkAvoidsExcluded(t: Tree, path: string, comps: seq<string>)
    requires forall k :: 0 <= k < |comps| ==> comps[k] !in ExcludeDirs
    ensures forall j, k :: 0 <= j < |Walk(t, path, comps, true)| && 0 <= k < |Walk(t, path, comps, true)[j].comps| ==>
      Walk(t, path, comps, true)[j].comps[k] !in ExcludeDirs
    decreases t, 1
  {
    PrunedDirsAvoidExcluded(t, 0, path, comps);
  }

  lemma {:induction false} PrunedDirsAvoidExcluded(t: Tree, i: nat, path: string, comps: seq<string>)
    requires i <= |t.dirs|
    requires forall k :: 0 <= k < |comps| ==> comps[k] !in ExcludeDirs
    ensures forall j, k :: 0 <= j < |WalkDirs(t, i, path, comps, true)| && 0 <= k < |WalkDirs(t, i, path, comps, true)[j].comps| ==>
      WalkDirs(t, i, path, comps, true)[j].comps[k] !in ExcludeDirs
    decreases t, 0, |t.dirs| - i
  {
    if i < |t.dirs| {
      var name := t.dirs[i].0;
      assert t.dirs[i].1 < t.dirs[i];
      PrunedDirsAvoidExcluded(t, i + 1, path, comps);
      if name !in ExcludeDirs {
        PrunedWalkAvoidsExcluded(t.dirs[i].1, PathJoin(path, name), comps + [name]);
      }
    }
  }

  /** An unpruned walk visits every directory of the tree once. */
  function DirCount(t: Tree): nat
    decreases t, 1
  {
    1 + DirsCount(t, 0)
  }

  function DirsCount(t: Tree, i: nat): nat
    requires i <= |t.dirs|
    decreases t, 0, |t.dirs| - i
  {
    if i == |t.dirs| then 0
    else
      assert t.dirs[i].1 < t.dirs[i];
      DirCount(t.dirs[i].1) + DirsCount(t, i + 1)
  }

  lemma {:induction false} FullWalkVisitsAll(t: Tree, path: string, comps: seq<string>)
    ensures |Walk(t, path, comps, false)| == DirCount(t)
    decreases t, 1
  {
    FullDirsVisitAll(t, 0, path, comps);
  }

  lemma {:induction false} FullDirsVisitAll(t: Tree, i: nat, path: string, comps: seq<string>)
    requires i <= |t.dirs|
    ensures |WalkDirs(t, i, path, comps, false)| == DirsCount(t, i)
    decreases t, 0, |t.dirs| - i
  {
    if i < |t.dirs| {
      assert t.dirs[i].1 < t.dirs[i];
      FullDirsVisitAll(t, i + 1, path, comps);
      FullWalkVisitsAll(t.dirs[i].1, PathJoin(path, t.dirs[i].0), comps + [t.dirs[i].0]);
    }
  }

  /** `os.path.relpath(os.path.join(root, file), top)` for a walked file. */
  function RelPath(comps: seq<string>, file: string): (r: string)
    ensures EndsWith(file, ".py") ==> EndsWith(r, ".py")
  {
    JoinLast(comps, file, "/");
    Join(comps + [file], "/")
  }

  // ---------------------------------------------------------------------
  // Module names

  /** The files the class scan loads: `.py` files not starting with "__". */
  predicate IsClassScanFile(file: string) {
    EndsWith(file, ".py") && !StartsWith(file, "__")
  }

  /** `rel_path[:-3].replace(os.sep, '.')`. */
  function ClassModuleName(rel: string): (m: string)
    requires EndsWith(rel, ".py")
    ensures '/' !in m && |m| == |rel| - 3
    ensures forall k :: 0 <= k < |m| ==> m[k] == (if rel[k] == '/' then '.' else rel[k])
  {
    ReplaceChar(rel[..|rel| - 3], '/', '.')
  }

  /** The function scan's module name as the source computes it: the dotted
      path passed through `rstrip(".py")`, which strips any trailing run of
      '.', 'p' and 'y' characters rather than the ".py" suffix. */
  function FunctionModuleNameAsWritten(rel: string): (m: string)
    ensures m == RStripChars(ReplaceChar(rel, '/', '.'), {'.', 'p', 'y'})
    ensures !EndsWith(m, ".py")
  {
    RStripChars(ReplaceChar(rel, '/', '.'), {'.', 'p', 'y'})
  }

  /** The module name the function scan evidently intends: the dotted path
      without its ".py" suffix, the same name the class scan derives. */
  function FunctionModuleName(rel: string): (m: string)
    requires EndsWith(rel, ".py")
    ensures m == ClassModuleName(rel)
  {
    ReplaceChar(rel[..|rel| - 3], '/', '.')
  }

  /** The corrected name removes exactly the suffix: "pkg/happy.py" names
      the module "pkg.happy". */
  lemma FunctionModuleNameOfStem(stem: string)
    ensures FunctionModuleName(stem + ".py") == ReplaceChar(stem, '/', '.')
  {
    assert (stem + ".py")[..|stem|] == stem;
  }

  /** As written, the name is right exactly when the stem is empty or does
      not end in '.', 'p', 'y' or '/'; "happy.py" gives "ha". */
  lemma {:induction false} AsWrittenAgreesIff(stem: string)
    ensures FunctionModuleNameAsWritten(stem + ".py") == FunctionModuleName(stem + ".py")
        <==> stem == [] || stem[|stem| - 1] !in {'.', 'p', 'y', '/'}
  {
    var good := ReplaceChar(stem, '/', '.');
    var kept := good == [] || good[|good| - 1] !in {'.', 'p', 'y'};
    FunctionModuleNameOfStem(stem);
    AsWrittenOfStem(stem);
    LastCharKept(stem);
    PyTailStripped();
    StripSuffixChars(good, ".py", {'.', 'p', 'y'});
    assert FunctionModuleNameAsWritten(stem + ".py") == FunctionModuleName(stem + ".py") <==> kept;
  }

  lemma AsWrittenOfStem(stem: string)
    ensures FunctionModuleNameAsWritten(stem + ".py") ==
            RStripChars(ReplaceChar(stem, '/', '.') + ".py", {'.', 'p', 'y'})
  {
    DottedOfStem(stem);
  }

  /** The last character of a path survives `rstrip` exactly when it is
      none of '.', 'p', 'y' and '/' (which becomes '.'). */
  lemma LastCharKept(stem: string)
    ensures (stem == [] || stem[|stem| - 1] !in {'.', 'p', 'y', '/'}) <==>
            (ReplaceChar(stem, '/', '.') == [] || ReplaceChar(stem, '/', '.')[|stem| - 1] !in {'.', 'p', 'y'})
  {
  }

  lemma PyTailStripped()
    ensures forall k :: 0 <= k < |".py"| ==> ".py"[k] in {'.', 'p', 'y'}
  {
  }

  /** Stripping a name followed by a tail of stripped characters gives the
      name back exactly when the name is empty or its last character is
      kept. */
  lemma StripSuffixChars(good: string, tail: string, chars: set<char>)
    requires forall k :: 0 <= k < |tail| ==> tail[k] in chars
    ensures RStripChars(good + tail, chars) == good <==> good == [] || good[|good| - 1] !in chars
  {
    var s := good + tail;
    assert s[..|good|] == good;
    forall k | |good| <= k < |s| ensures s[k] in chars {
      assert s[k] == tail[k - |good|];
    }
    RStripExact(s, |good|, chars);
    assert good != [] ==> s[|good| - 1] == good[|good| - 1];
  }

  /** Stripping a tail made only of stripped characters leaves exactly
      the part before it when, and only when, that part's last character
      is kept. */
  lemma RStripExact(s: string, n: nat, chars: set<char>)
    requires n <= |s| && forall k :: n <= k < |s| ==> s[k] in chars
    ensures RStripChars(s, chars) == s[..n] <==> n == 0 || s[n - 1] !in chars
  {
    if n == 0 || s[n - 1] !in chars {
      RStripCharsStops(s, n, chars);
    } else {
      RStripCharsBelow(s, n - 1, chars);
    }
  }

  lemma DottedOfStem(stem: string)
    ensures ReplaceChar(stem + ".py", '/', '.') == ReplaceChar(stem, '/', '.') + ".py"
  {
    var dotted := ReplaceChar(stem + ".py", '/', '.');
    var good := ReplaceChar(stem, '/', '.');
    assert forall k :: 0 <= k < |dotted| ==> dotted[k] == (good + ".py")[k];
  }

  /** Stripping a tail made only of stripped characters leaves at most the
      part before it. */
  lemma {:induction false} RStripCharsBelow(s: string, n: nat, chars: set<char>)
    requires n <= |s| && forall k :: n <= k < |s| ==> s[k] in chars
    ensures |RStripChars(s, chars)| <= n
    decreases |s|
  {
    if |s| > n {
      RStripCharsBelow(s[..|s| - 1], n, chars);
    }
  }

  /** ... and exactly that part when its last character is kept. */
  lemma {:induction false} RStripCharsStops(s: string, n: nat, chars: set<char>)
    requires n <= |s| && forall k :: n <= k < |s| ==> s[k] in chars
    requires n == 0 || s[n - 1] !in chars
    ensures RStripChars(s, chars) == s[..n]
    decreases |s|
  {
    if |s| > n {
      assert s[..|s| - 1][..n] == s[..n];
      RStripCharsStops(s[..|s| - 1], n, chars);
    }
  }

  /** A stem ending in 'p' or 'y' loses letters: "happy.py" becomes "ha". */
  lemma HappyBecomesHa()
    ensures FunctionModuleNameAsWritten("happy.py") != FunctionModuleName("happy.py")
  {
    AsWrittenAgreesIff("happy");
    assert "happy" + ".py" == "happy.py";
  }

  // ---------------------------------------------------------------------
  // scan_classes_in_directory

  /** A method's entry: its serialized parameters, or the error raised by
      `inspect.signature`. */
  datatype MethodEntry = Params(params: seq<ParamInfo>) | SignatureError(message: string)

  /** A class found in an imported module: its name, the module that defines
      it, and its functions (name and signature, or the signature error). */
  datatype ClassInfo = ClassInfo(name: string, definedIn: string, methods: seq<(string, Result<seq<Param>, string>)>)

  /** Importing a module and listing its classes; `None` when the import
      raises. */
  type Inspector = string -> Option<seq<ClassInfo>>

  /** The parameters of a signature without `self` and `cls`, serialized. */
  function ParamList(ps: seq<Param>, render: Value -> string): (r: seq<ParamInfo>)
    ensures |r| <= |ps|
    ensures forall k :: 0 <= k < |r| ==> r[k].name != "self" && r[k].name != "cls"
    ensures (forall k :: 0 <= k < |ps| ==> ps[k].name != "self" && ps[k].name != "cls") ==> |r| == |ps|
  {
    if ps == [] then []
    else if ps[0].name in {"self", "cls"} then ParamList(ps[1..], render)
    else [SerializeParam(ps[0], render)] + ParamList(ps[1..], render)
  }

  /** Serializing the parameters of two consecutive runs serializes those
      of the first run, then those of the second: the order is kept. */
  lemma {:induction false} ParamListConcat(a: seq<Param>, b: seq<Param>, render: Value -> string)
    ensures ParamList(a + b, render) == ParamList(a, render) + ParamList(b, render)
  {
    if a == [] {
      assert a + b == b;
    } else {
      assert (a + b)[0] == a[0];
      assert (a + b)[1..] == a[1..] + b;
      ParamListConcat(a[1..], b, render);
    }
  }

  /** A single parameter is dropped exactly when it is `self` or `cls`, and
      otherwise kept in its serialized form. */
  lemma ParamListSingle(p: Param, render: Value -> string)
    ensures ParamList([p], render) == if p.name in {"self", "cls"} then [] else [SerializeParam(p, render)]
  {
  }

  /** `k` names a public method of the class. */
  predicate PublicName(ms: seq<(string, Result<seq<Param>, string>)>, k: string) {
    exists i :: 0 <= i < |ms| && ms[i].0 == k && !StartsWith(k, "_")
  }

  /** The method map of a class: public methods only, later names
      overwriting earlier ones. */
  function MethodMap(ms: seq<(string, Result<seq<Param>, string>)>, render: Value -> string): (r: Dict<MethodEntry>)
    ensures forall k :: HasKey(r, k) <==> PublicName(ms, k)
    decreases |ms|
  {
    if ms == [] then []
    else
      var init := ms[..|ms| - 1];
      var (name, sig) := ms[|ms| - 1];
      var m := MethodMap(init, render);
      var entry := match sig case Ok(ps) => Params(ParamList(ps, render)) case Err(e) => SignatureError(e);
      PublicNameSnoc(ms);
      if StartsWith(name, "_") then m
      else
        SetKeys(m, name, entry);
        Set(m, name, entry)
  }

  /** The public names of a longer method list: those of the shorter one
      and the last name, unless it is private. */
  lemma PublicNameSnoc(ms: seq<(string, Result<seq<Param>, string>)>)
    requires ms != []
    ensures forall k :: PublicName(ms, k) <==>
      PublicName(ms[..|ms| - 1], k) || (k == ms[|ms| - 1].0 && !StartsWith(k, "_"))
  {
    var init := ms[..|ms| - 1];
    forall k | PublicName(ms, k) ensures PublicName(init, k) || k == ms[|ms| - 1].0 {
      var i :| 0 <= i < |ms| && ms[i].0 == k && !StartsWith(k, "_");
      if i < |init| { assert init[i].0 == k; }
    }
    forall k | PublicName(init, k) ensures PublicName(ms, k) {
      var i :| 0 <= i < |init| && init[i].0 == k && !StartsWith(k, "_");
      assert ms[i].0 == k;
    }
  }

  /** Writing a key adds exactly that key. */
  lemma SetKeys<V>(d: Dict<V>, k: string, v: V)
    ensures forall k2 :: HasKey(Set(d, k, v), k2) <==> HasKey(d, k2) || k2 == k
  {
    forall k2 ensures HasKey(Set(d, k, v), k2) <==> HasKey(d, k2) || k2 == k {
      SetHasKey(d, k, v, k2);
    }
  }

  /** Writing a key makes it present and keeps every other key's presence. */
  lemma SetHasKey<V>(d: Dict<V>, k: string, v: V, k2: string)
    ensures HasKey(Set(d, k, v), k2) <==> HasKey(d, k2) || k2 == k
  {
    GetSet(d, k, v, k2);
  }

  /** The classes a module defines itself, keyed "module.Class". */
  function AddClasses(classMap: Dict<Dict<MethodEntry>>, moduleName: string, classes: seq<ClassInfo>,
                      render: Value -> string): Dict<Dict<MethodEntry>>
    decreases |classes|
  {
    if classes == [] then classMap
    else
      var c := classes[0];
      var next := if c.definedIn != moduleName then classMap
                  else Set(classMap, moduleName + "." + c.name, MethodMap(c.methods, render));
      AddClasses(next, moduleName, classes[1..], render)
  }

  /** The files of one walked directory. */
  function ScanClassFiles(classMap: Dict<Dict<MethodEntry>>, v: Visit, files: seq<string>,
                          inspect: Inspector, render: Value -> string): Dict<Dict<MethodEntry>>
    decreases |files|
  {
    if files == [] then classMap
    else
      var next :=
        if !IsClassScanFile(files[0]) then classMap
        else
          var moduleName := ClassModuleName(RelPath(v.comps, files[0]));
          match inspect(moduleName)
          case None => classMap
          case Some(classes) => AddClasses(classMap, moduleName, classes, render);
      ScanClassFiles(next, v, files[1..], inspect, render)
  }

  function ClassMapOf(classMap: Dict<Dict<MethodEntry>>, visits: seq<Visit>,
                      inspect: Inspector, render: Value -> string): Dict<Dict<MethodEntry>>
    decreases |visits|
  {
    if visits == [] then classMap
    else ClassMapOf(ScanClassFiles(classMap, visits[0], visits[0].files, inspect, render), visits[1..], inspect, render)
  }

  lemma {:induction false} JoinLast(parts: seq<string>, last: string, sep: string)
    ensures EndsWith(Join(parts + [last], sep), last)
    decreases |parts|
  {
    if parts != [] {
      assert (parts + [last])[1..] == parts[1..] + [last];
      JoinLast(parts[1..], last, sep);
    }
  }

  /** `scan_classes_in_directory(directory)`: walk with pruning, load each
      eligible file's module, record its own classes' public methods. */
  method ScanClassesInDirectory(tree: Tree, directory: string, inspect: Inspector, render: Value -> string)
    returns (classMap: Dict<Dict<MethodEntry>>)
    ensures classMap == ClassMapOf([], Walk(tree, directory, [], true), inspect, render)
  {
    var visits := Walk(tree, directory, [], true);
    classMap := [];
    var i := 0;
    while i < |visits|
      invariant 0 <= i <= |visits|
      invariant ClassMapOf([], visits, inspect, render) == ClassMapOf(classMap, visits[i..], inspect, render)
    {
      var v := visits[i];
      assert visits[i..][1..] == visits[i + 1..];
      var j := 0;
      ghost var before := classMap;
      while j < |v.files|
        invariant 0 <= j <= |v.files|
        invariant ScanClassFiles(before, v, v.files, inspect, render)
               == ScanClassFiles(classMap, v, v.files[j..], inspect, render)
      {
        var file := v.files[j];
        assert v.files[j..][1..] == v.files[j + 1..];
        if IsClassScanFile(file) {
          var moduleName := ClassModuleName(RelPath(v.comps, file));
          var loaded := inspect(moduleName);
          if loaded.Some? {
            classMap := AddClasses(classMap, moduleName, loaded.value, render);
          }
        }
        j := j + 1;
      }
      i := i + 1;
    }
  }

  // ---------------------------------------------------------------------
  // extract_function_info and scan_functions_in_directory

  /** The statements of a parsed file, as far as the scan looks at them. */
  datatype Stmt =
    | FunctionDef(name: string, args: seq<string>, isAsync: bool)
    | ClassDef(name: string, body: seq<Stmt>)
    | OtherStmt(body: seq<Stmt>)

  datatype FunctionInfo = FunctionInfo(name: string, args: seq<string>, isAsync: bool)

  /** The record `extract_function_info` lists for a function definition. */
  function InfoOf(s: Stmt): FunctionInfo
    requires s.FunctionDef?
  {
    FunctionInfo(s.name, s.args, s.isAsync)
  }

  /** The functions defined directly at module level, in source order:
      every listed function is a definition of the body, and every
      definition of the body is listed. */
  function TopLevelFunctions(body: seq<Stmt>): (fs: seq<FunctionInfo>)
    ensures |fs| <= |body|
    ensures forall k :: 0 <= k < |fs| ==> exists i :: 0 <= i < |body| && body[i] == FunctionDef(fs[k].name, fs[k].args, fs[k].isAsync)
    ensures forall i :: 0 <= i < |body| && body[i].FunctionDef? ==> InfoOf(body[i]) in fs
  {
    if body == [] then []
    else
      var rest := TopLevelFunctions(body[1..]);
      assert forall k :: 0 <= k < |rest| ==> exists i :: 0 <= i < |body| && body[i] == FunctionDef(rest[k].name, rest[k].args, rest[k].isAsync) by {
        forall k | 0 <= k < |rest|
          ensures exists i :: 0 <= i < |body| && body[i] == FunctionDef(rest[k].name, rest[k].args, rest[k].isAsync) {
          var i :| 0 <= i < |body| - 1 && body[1..][i] == FunctionDef(rest[k].name, rest[k].args, rest[k].isAsync);
          assert body[i + 1] == body[1..][i];
        }
      }
      assert forall i :: 1 <= i < |body| && body[i].FunctionDef? ==> InfoOf(body[i]) in rest by {
        forall i | 1 <= i < |body| && body[i].FunctionDef? ensures InfoOf(body[i]) in rest {
          assert body[1..][i - 1] == body[i];
        }
      }
      match body[0]
      case FunctionDef(n, a, async_) => [FunctionInfo(n, a, async_)] + rest
      case _ => rest
  }

  /** Listing the functions of two consecutive runs of statements lists
      those of the first run, then those of the second: the order of the
      listing is the order of the module body. */
  lemma {:induction false} TopLevelFunctionsConcat(a: seq<Stmt>, b: seq<Stmt>)
    ensures TopLevelFunctions(a + b) == TopLevelFunctions(a) + TopLevelFunctions(b)
  {
    if a == [] {
      assert a + b == b;
    } else {
      assert (a + b)[0] == a[0];
      assert (a + b)[1..] == a[1..] + b;
      TopLevelFunctionsConcat(a[1..], b);
    }
  }

  /** `extract_function_info(file_path, module_name)`; `parsed` is the
      module body, or `None` on a syntax error. */
  function ExtractFunctionInfo(parsed: Option<seq<Stmt>>, moduleName: string): (r: Dict<seq<FunctionInfo>>)
    ensures r == [] <==> parsed.None? || TopLevelFunctions(parsed.value) == []
    ensures r != [] ==> r == [(moduleName, TopLevelFunctions(parsed.value))]
  {
    match parsed
    case None => []
    case Some(body) =>
      var functions := TopLevelFunctions(body);
      if functions != [] then [(moduleName, functions)] else []
  }

  const ExcludedSubstrings: seq<string> := [".venv", "__pycache__", "site-packages"]

  /** The function scan skips a directory when an excluded name occurs
      anywhere in its path, as a substring. */
  predicate SkipsDir(path: string) {
    exists k :: 0 <= k < |ExcludedSubstrings| && Contains(path, ExcludedSubstrings[k])
  }

  /** Parsing a file at a path: its module body, or `None` on a syntax error. */
  type Parser = string -> Option<seq<Stmt>>

  function ScanFunctionFiles(functionMap: Dict<seq<FunctionInfo>>, v: Visit, files: seq<string>,
                             parse: Parser): Dict<seq<FunctionInfo>>
    decreases |files|
  {
    if files == [] then functionMap
    else
      var next :=
        if !EndsWith(files[0], ".py") then functionMap
        else
          var moduleName := FunctionModuleName(RelPath(v.comps, files[0]));
          Merge(functionMap, ExtractFunctionInfo(parse(PathJoin(v.path, files[0])), moduleName));
      ScanFunctionFiles(next, v, files[1..], parse)
  }

  function FunctionMapOf(functionMap: Dict<seq<FunctionInfo>>, visits: seq<Visit>, parse: Parser): Dict<seq<FunctionInfo>>
    decreases |visits|
  {
    if visits == [] then functionMap
    else
      var next := if SkipsDir(visits[0].path) then functionMap
                  else ScanFunctionFiles(functionMap, visits[0], visits[0].files, parse);
      FunctionMapOf(next, visits[1..], parse)
  }

  /** A skipped directory contributes nothing, whatever its files hold. */
  lemma SkippedDirContributesNothing(functionMap: Dict<seq<FunctionInfo>>, v: Visit, rest: seq<Visit>, parse: Parser)
    requires Contains(v.path, "site-packages") || Contains(v.path, ".venv") || Contains(v.path, "__pycache__")
    ensures FunctionMapOf(functionMap, [v] + rest, parse) == FunctionMapOf(functionMap, rest, parse)
  {
    assert ([v] + rest)[1..] == rest;
    if Contains(v.path, "site-packages") { assert ExcludedSubstrings[2] == "site-packages"; }
    else if Contains(v.path, ".venv") { assert ExcludedSubstrings[0] == ".venv"; }
    else { assert ExcludedSubstrings[1] == "__pycache__"; }
  }

  /** `scan_functions_in_directory(root_dir)`: walk everything, skip
      directories by substring, merge each `.py` file's functions. */
  method ScanFunctionsInDirectory(tree: Tree, rootDir: string, parse: Parser)
    returns (functionMap: Dict<seq<FunctionInfo>>)
    ensures functionMap == FunctionMapOf([], Walk(tree, rootDir, [], false), parse)
  {
    var visits := Walk(tree, rootDir, [], false);
    functionMap := [];
    var i := 0;
    while i < |visits|
      invariant 0 <= i <= |visits|
      invariant FunctionMapOf([], visits, parse) == FunctionMapOf(functionMap, visits[i..], parse)
    {
      var v := visits[i];
      assert visits[i..][1..] == visits[i + 1..];
      if !SkipsDir(v.path) {
        var j := 0;
        ghost var before := functionMap;
        while j < |v.files|
          invariant 0 <= j <= |v.files|
          invariant ScanFunctionFiles(before, v, v.files, parse) == ScanFunctionFiles(functionMap, v, v.files[j..], parse)
        {
          var file := v.files[j];
          assert v.files[j..][1..] == v.files[j + 1..];
          if EndsWith(file, ".py") {
              var moduleName := FunctionModuleName(RelPath(v.comps, file));
            functionMap := Merge(functionMap, ExtractFunctionInfo(parse(PathJoin(v.path, file)), moduleName));
          }
          j := j + 1;
        }
      }
      i := i + 1;
    }
  }
}
