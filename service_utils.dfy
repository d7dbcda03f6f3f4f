/** The test platform's type-string parser and value converter, and the
    builder that converts every declared parameter of every test case.
    Python's `float()`, `str()`, `json.loads`, `eval`, `list()`, `dict()`
    and class import/construction are supplied as a record of functions. */
module ServiceUtils {
  import opened Wrappers
  import opened PyText
  import opened PyValue

  datatype ExcKind = ValueError | TypeError | SyntaxError | OtherError

  /** A raised exception: its class and `str(e)`. */
  datatype Exc = Exc(kind: ExcKind, msg: string)

  /** The Python built-ins and reflection the converter calls. */
  datatype Builtins = Builtins(
    toFloat: Value -> Result<real, Exc>,          // float(v)
    toStr: Value -> string,                       // str(v)
    jsonLoads: string -> Option<Value>,           // json.loads; None on JSONDecodeError
    evalExpr: string -> Result<Value, Exc>,       // eval(s)
    toList: Value -> Result<seq<Value>, Exc>,     // list(v)
    toDict: Value -> Result<Dict<Value>, Exc>,    // dict(v)
    lookupClass: string -> Result<string, Exc>,   // get_class_from_string
    construct: (string, Value) -> Result<Value, Exc>,  // target_class(v)
    fromDict: (string, Value) -> Result<Value, Exc>)   // dict_to_object(v, target_class)

  // ---------------------------------------------------------------------
  // parse_complex_type: the pattern ^(\w+)\(([^)]+)\)$

  predicate IsWordChar(c: char) {
    ('a' <= c <= 'z') || ('A' <= c <= 'Z') || ('0' <= c <= '9') || c == '_'
  }

  predicate IsWord(s: string) {
    |s| > 0 && forall k :: 0 <= k < |s| ==> IsWordChar(s[k])
  }

  /** Length of the longest prefix of word characters. */
  function WordPrefix(s: string): (n: nat)
    ensures n <= |s| && (forall k :: 0 <= k < n ==> IsWordChar(s[k]))
    ensures n < |s| ==> !IsWordChar(s[n])
  {
    if s == [] || !IsWordChar(s[0]) then 0 else 1 + WordPrefix(s[1..])
  }

  /** "name(inner)": a word, one '(' and a non-empty inner part without ')'. */
  predicate IsContainerText(s: string, name: string, inner: string) {
    s == name + "(" + inner + ")" && IsWord(name) && |inner| > 0 && ')' !in inner
  }

  /** The two groups of the pattern, when it matches. */
  function ContainerMatch(s: string): (m: Option<(string, string)>)
    ensures m.Some? ==> IsContainerText(s, m.value.0, m.value.1)
  {
    var i := WordPrefix(s);
    if i == 0 || i >= |s| || s[i] != '(' then None
    else
      var rest := s[i + 1..];
      if |rest| < 2 || rest[|rest| - 1] != ')' then None
      else
        var inner := rest[..|rest| - 1];
        if ')' in inner then None
        else
          assert s == s[..i] + "(" + inner + ")";
          Some((s[..i], inner))
  }

  /** The match is the only one: any "name(inner)" text is matched with
      exactly that name and inner part. */
  lemma ContainerMatchComplete(s: string, name: string, inner: string)
    requires IsContainerText(s, name, inner)
    ensures ContainerMatch(s) == Some((name, inner))
  {
    WordPrefixOf(name, "(" + inner + ")");
    assert s == name + ("(" + inner + ")");
    assert s[|name| + 1..] == inner + ")";
    assert s[..|name|] == name;
  }

  lemma {:induction false} WordPrefixOf(w: string, rest: string)
    requires forall k :: 0 <= k < |w| ==> IsWordChar(w[k])
    requires rest != [] && !IsWordChar(rest[0])
    ensures WordPrefix(w + rest) == |w|
    decreases |w|
  {
    if w != [] {
      assert (w + rest)[1..] == w[1..] + rest;
      WordPrefixOf(w[1..], rest);
    }
  }

  /** `parse_complex_type(type_str)`: the lower-cased container name and the
      stripped inner type, or no container and the text as given. */
  function ParseComplexType(typeStr: string): (r: (Option<string>, string))
    ensures ContainerMatch(Strip(typeStr)).Some? ==>
      r == (Some(Lower(ContainerMatch(Strip(typeStr)).value.0)),
            Strip(ContainerMatch(Strip(typeStr)).value.1))
    ensures ContainerMatch(Strip(typeStr)).None? ==> r == (None, typeStr)
  {
    match ContainerMatch(Strip(typeStr))
    case Some((name, inner)) => (Some(Lower(name)), Strip(inner))
    case None => (None, typeStr)
  }

  // ---------------------------------------------------------------------
  // _convert_simple_type

  /** `int(x)` of a float: truncation toward zero. */
  function Trunc(r: real): (i: int)
    ensures r >= 0.0 ==> i as real <= r < i as real + 1.0
    ensures r < 0.0 ==> i as real - 1.0 < r <= i as real
  {
    if r >= 0.0 then r.Floor else -((-r).Floor)
  }

  const BoolWords: set<string> := {"true", "1", "yes", "on"}

  /** A string that starts with `open` goes to `json.loads`, falling back to
      `eval` on a decode error. */
  function LoadOrEval(s: string, b: Builtins): Result<Value, Exc> {
    match b.jsonLoads(s)
    case Some(v) => Ok(v)
    case None => b.evalExpr(s)
  }

  /** A value converted to an instance of the class at a dotted path. */
  function ToClass(value: Value, classPath: string, b: Builtins): Result<Value, Exc> {
    match b.lookupClass(classPath)
    case Err(e) => Err(e)
    case Ok(cls) => if value.PyDict? then b.fromDict(cls, value) else b.construct(cls, value)
  }

  /** `_convert_simple_type(value, target_type)`. */
  function ConvertSimple(value: Value, targetType: string, b: Builtins): (r: Result<Value, Exc>)
    ensures Lower(targetType) in {"bool", "boolean"} && value.PyStr? ==>
      r == Ok(PyBool(Lower(value.s) in BoolWords))
    ensures Lower(targetType) in {"str", "string"} ==> r == Ok(PyStr(b.toStr(value)))
    ensures Lower(targetType) in {"int", "integer"} && b.toFloat(value).Ok? ==>
      r == Ok(PyInt(Trunc(b.toFloat(value).value)))
    ensures (Lower(targetType) !in {"int", "integer", "float", "double", "str", "string", "bool",
                                    "boolean", "list", "array", "dict", "object"}
             && '.' !in targetType) ==> r == Ok(value)
  {
    var t := Lower(targetType);
    if t in {"int", "integer"} then
      match b.toFloat(value)
      case Ok(x) => Ok(PyInt(Trunc(x)))
      case Err(e) => Err(e)
    else if t in {"float", "double"} then
      match b.toFloat(value)
      case Ok(x) => Ok(PyFloat(x))
      case Err(e) => Err(e)
    else if t in {"str", "string"} then Ok(PyStr(b.toStr(value)))
    else if t in {"bool", "boolean"} then
      if value.PyStr? then Ok(PyBool(Lower(value.s) in BoolWords)) else Ok(PyBool(Truthy(value)))
    else if t in {"list", "array"} then
      if value.PyStr? then
        if StartsWith(value.s, "[") then LoadOrEval(value.s, b) else Ok(PyList([value]))
      else if value.PyList? then Ok(value)
      else
        match b.toList(value)
        case Ok(xs) => Ok(PyList(xs))
        case Err(e) => Err(e)
    else if t in {"dict", "object"} then
      if value.PyStr? then
        if StartsWith(value.s, "{") then LoadOrEval(value.s, b) else Ok(PyDict([]))
      else if value.PyDict? then Ok(value)
      else
        match b.toDict(value)
        case Ok(es) => Ok(PyDict(es))
        case Err(e) => Err(e)
    else if '.' in targetType then ToClass(value, targetType, b)
    else Ok(value)
  }

  // ---------------------------------------------------------------------
  // _convert_container_type

  /** `for item in v`: list items, characters of a string, keys of a dict. */
  function Iterate(v: Value): Result<seq<Value>, Exc> {
    match v
    case PyList(xs) => Ok(xs)
    case PyStr(s) => Ok(seq(|s|, k requires 0 <= k < |s| => PyStr([s[k]])))
    case PyDict(es) => Ok(seq(|es|, k requires 0 <= k < |es| => PyStr(es[k].0)))
    case _ => Err(Exc(TypeError, "object is not iterable"))
  }

  /** One item of a `list(inner)` value. */
  function ConvertItem(item: Value, inner: string, b: Builtins): Result<Value, Exc> {
    if '.' in inner then ToClass(item, inner, b) else ConvertSimple(item, inner, b)
  }

  /** All items in order; the first failure is raised. */
  function ConvertItems(items: seq<Value>, inner: string, b: Builtins): (r: Result<seq<Value>, Exc>)
    ensures r.Ok? ==> (|r.value| == |items|
      && forall k :: 0 <= k < |items| ==> ConvertItem(items[k], inner, b) == Ok(r.value[k]))
    decreases |items|
  {
    if items == [] then Ok([])
    else
      match ConvertItem(items[0], inner, b)
      case Err(e) => Err(e)
      case Ok(x) =>
        match ConvertItems(items[1..], inner, b)
        case Err(e) => Err(e)
        case Ok(xs) => Ok([x] + xs)
  }

  /** Results already produced, in front of the outcome of the rest. */
  function Prepend<T>(done: seq<T>, rest: Result<seq<T>, Exc>): Result<seq<T>, Exc> {
    match rest
    case Ok(xs) => Ok(done + xs)
    case Err(e) => Err(e)
  }

  /** One step of `ConvertItems` at position `i`: a failing item is the
      outcome, a converted one joins the results already produced. */
  lemma ConvertItemsStep(items: seq<Value>, i: nat, inner: string, b: Builtins, done: seq<Value>)
    requires i < |items|
    ensures ConvertItem(items[i], inner, b).Err? ==>
      Prepend(done, ConvertItems(items[i..], inner, b)) == Err(ConvertItem(items[i], inner, b).error)
    ensures ConvertItem(items[i], inner, b).Ok? ==>
      Prepend(done, ConvertItems(items[i..], inner, b))
      == Prepend(done + [ConvertItem(items[i], inner, b).value], ConvertItems(items[i + 1..], inner, b))
  {
    assert items[i..][0] == items[i] && items[i..][1..] == items[i + 1..];
    var converted := ConvertItem(items[i], inner, b);
    var tail := ConvertItems(items[i + 1..], inner, b);
    if converted.Ok? && tail.Ok? {
      assert done + ([converted.value] + tail.value) == (done + [converted.value]) + tail.value;
    }
  }

  /** The item loop of the list branch, appending converted items. */
  method ConvertListItems(items: seq<Value>, inner: string, b: Builtins) returns (r: Result<seq<Value>, Exc>)
    ensures r == ConvertItems(items, inner, b)
  {
    var result: seq<Value> := [];
    var i := 0;
    assert items[0..] == items;
    if ConvertItems(items, inner, b).Ok? {
      assert [] + ConvertItems(items, inner, b).value == ConvertItems(items, inner, b).value;
    }
    while i < |items|
      invariant 0 <= i <= |items|
      invariant ConvertItems(items, inner, b) == Prepend(result, ConvertItems(items[i..], inner, b))
    {
      var converted := ConvertItem(items[i], inner, b);
      ConvertItemsStep(items, i, inner, b, result);
      if converted.Err? {
        return Err(converted.error);
      }
      result := result + [converted.value];
      i := i + 1;
    }
    assert items[i..] == [];
    assert result + [] == result;
    return Ok(result);
  }

  /** The items the list branch converts: a list as it is, a string
      starting with '[' through `json.loads`/`eval`, and any other value as
      the only item of a one-element list. */
  function ListItems(value: Value, b: Builtins): (r: Result<seq<Value>, Exc>)
    ensures value.PyList? ==> r == Ok(value.items)
    ensures !value.PyList? && !(value.PyStr? && StartsWith(value.s, "[")) ==> r == Ok([value])
  {
    var parsed :=
      if value.PyStr? then
        if StartsWith(value.s, "[") then LoadOrEval(value.s, b) else Ok(PyList([value]))
      else if value.PyList? then Ok(value)
      else Ok(PyList([value]));
    match parsed
    case Err(e) => Err(e)
    case Ok(p) => Iterate(p)
  }

  /** The mapping the dict branch starts from: a dict as it is, a string
      starting with '{' through `json.loads`/`eval`, any other string as the
      empty dict, and any other value through `dict()`. */
  function DictParsed(value: Value, b: Builtins): (r: Result<Value, Exc>)
    ensures value.PyDict? ==> r == Ok(value)
    ensures value.PyStr? && !StartsWith(value.s, "{") ==> r == Ok(PyDict([]))
    ensures !value.PyStr? && !value.PyDict? ==>
      r == (if b.toDict(value).Ok? then Ok(PyDict(b.toDict(value).value)) else Err(b.toDict(value).error))
  {
    if value.PyStr? then
      if StartsWith(value.s, "{") then LoadOrEval(value.s, b) else Ok(PyDict([]))
    else if value.PyDict? then Ok(value)
    else
      match b.toDict(value)
      case Ok(es) => Ok(PyDict(es))
      case Err(e) => Err(e)
  }

  /** `_convert_container_type(value, container_type, inner_type)`: a list
      converts each of its items in order, a dict is returned as parsed or
      turned into an instance of the class its inner type names, and any
      other container is refused. */
  function ConvertContainer(value: Value, container: string, inner: string, b: Builtins): (r: Result<Value, Exc>)
    ensures container !in {"list", "dict"} ==> r == Err(Exc(ValueError, "不支持的容器类型: " + container))
    ensures container == "list" && ListItems(value, b).Err? ==> r == Err(ListItems(value, b).error)
    ensures container == "list" && ListItems(value, b).Ok? ==>
      var items := ListItems(value, b).value;
      (r.Ok? <==> ConvertItems(items, inner, b).Ok?)
      && (r.Ok? ==> r.value.PyList? && |r.value.items| == |items|
                    && forall k :: 0 <= k < |items| ==> ConvertItem(items[k], inner, b) == Ok(r.value.items[k]))
    ensures container == "dict" && DictParsed(value, b).Err? ==> r == Err(DictParsed(value, b).error)
    ensures container == "dict" && DictParsed(value, b).Ok? && '.' !in inner ==> r == DictParsed(value, b)
    ensures container == "dict" && DictParsed(value, b).Ok? && '.' in inner ==>
      r == (if b.lookupClass(inner).Ok? then b.fromDict(b.lookupClass(inner).value, DictParsed(value, b).value)
            else Err(b.lookupClass(inner).error))
  {
    if container == "list" then
      match ListItems(value, b)
      case Err(e) => Err(e)
      case Ok(items) =>
        match ConvertItems(items, inner, b)
        case Err(e) => Err(e)
        case Ok(xs) => Ok(PyList(xs))
    else if container == "dict" then
      match DictParsed(value, b)
      case Err(e) => Err(e)
      case Ok(p) =>
        if '.' in inner then
          match b.lookupClass(inner)
          case Err(e) => Err(e)
          case Ok(cls) => b.fromDict(cls, p)
        else Ok(p)
    else Err(Exc(ValueError, "不支持的容器类型: " + container))
  }

  // ---------------------------------------------------------------------
  // convert_value

  /** Values that convert to `None` whatever the target type. */
  predicate IsNoneLike(value: Value) {
    value.PyNone? || value == PyStr("") || (value.PyStr? && Lower(value.s) == "none")
  }

  /** The container or the simple conversion, as `parse_complex_type` decides. */
  function Dispatch(value: Value, targetType: string, b: Builtins): Result<Value, Exc> {
    var (c, inner) := ParseComplexType(targetType);
    if c.Some? then ConvertContainer(value, c.value, inner, b) else ConvertSimple(value, targetType, b)
  }

  /** `convert_value(value, target_type)`: none-like values first, then the
      container or simple conversion; ValueError, TypeError and SyntaxError
      are re-raised as a ValueError naming the value and the type, any other
      exception passes through. */
  function ConvertValue(value: Value, targetType: string, b: Builtins): (r: Result<Value, Exc>)
    ensures IsNoneLike(value) ==> r == Ok(PyNone)
    ensures !IsNoneLike(value) && Dispatch(value, targetType, b).Ok? ==> r == Dispatch(value, targetType, b)
    ensures r.Err? <==> !IsNoneLike(value) && Dispatch(value, targetType, b).Err?
    ensures r.Err? && r.error.kind != OtherError ==>
      r.error == Exc(ValueError, "无法将值 '" + b.toStr(value) + "' 转换为类型 '" + targetType + "': "
                                 + Dispatch(value, targetType, b).error.msg)
    ensures r.Err? && r.error.kind == OtherError ==> r == Dispatch(value, targetType, b)
  {
    if IsNoneLike(value) then Ok(PyNone)
    else
      var r := Dispatch(value, targetType, b);
      match r
      case Err(e) =>
        if e.kind == OtherError then r
        else Err(Exc(ValueError, "无法将值 '" + b.toStr(value) + "' 转换为类型 '" + targetType + "': " + e.msg))
      case Ok(_) => r
  }

  /** Any type text of the form "name(inner)", up to surrounding
      whitespace, parses to the lower-cased name and the stripped inner
      type; "List( int )" gives ("list", "int"). */
  lemma ParseContainer(typeStr: string, name: string, inner: string)
    requires IsContainerText(Strip(typeStr), name, inner)
    ensures ParseComplexType(typeStr) == (Some(Lower(name)), Strip(inner))
  {
    ContainerMatchComplete(Strip(typeStr), name, inner);
  }

  /** A container other than list and dict, such as "set(int)", is
      rejected with a ValueError naming the value, the type and the
      container. */
  lemma UnsupportedContainer(value: Value, typeStr: string, name: string, inner: string, b: Builtins)
    requires !IsNoneLike(value)
    requires IsContainerText(Strip(typeStr), name, inner) && Lower(name) !in {"list", "dict"}
    ensures ConvertValue(value, typeStr, b) ==
      Err(Exc(ValueError, "无法将值 '" + b.toStr(value) + "' 转换为类型 '" + typeStr + "': "
                          + "不支持的容器类型: " + Lower(name)))
  {
    ParseContainer(typeStr, name, inner);
    var c := Lower(name);
    assert Dispatch(value, typeStr, b) == ConvertContainer(value, c, Strip(inner), b);
    assert ConvertContainer(value, c, Strip(inner), b) == Err(Exc(ValueError, "不支持的容器类型: " + c));
    var prefix := "无法将值 '" + b.toStr(value) + "' 转换为类型 '" + typeStr + "': ";
    assert prefix + ("不支持的容器类型: " + Lower(name)) == prefix + "不支持的容器类型: " + Lower(name);
  }

  /** A dict value given a "dict(T)" type with a simple inner type comes
      back as it is. */
  lemma DictPassesThrough(value: Value, typeStr: string, name: string, inner: string, b: Builtins)
    requires value.PyDict?
    requires IsContainerText(Strip(typeStr), name, inner) && Lower(name) == "dict" && '.' !in Strip(inner)
    ensures ConvertValue(value, typeStr, b) == Ok(value)
  {
    ParseContainer(typeStr, name, inner);
    assert Dispatch(value, typeStr, b) == ConvertContainer(value, "dict", Strip(inner), b);
  }

  /** A dict value given a "dict(pkg.Class)" type becomes the instance that
      `dict_to_object` builds for the class the path names. */
  lemma DictBecomesObject(value: Value, typeStr: string, name: string, inner: string, cls: string, b: Builtins)
    requires value.PyDict?
    requires IsContainerText(Strip(typeStr), name, inner) && Lower(name) == "dict" && '.' in Strip(inner)
    requires b.lookupClass(Strip(inner)) == Ok(cls) && b.fromDict(cls, value).Ok?
    ensures ConvertValue(value, typeStr, b) == b.fromDict(cls, value)
  {
    ParseContainer(typeStr, name, inner);
    assert Dispatch(value, typeStr, b) == ConvertContainer(value, "dict", Strip(inner), b);
  }

  /** A list value given a "list(T)" type becomes the list of its items,
      each converted to T, in order. */
  lemma ListConvertsEachItem(value: Value, typeStr: string, name: string, inner: string, b: Builtins)
    requires value.PyList?
    requires IsContainerText(Strip(typeStr), name, inner) && Lower(name) == "list"
    requires ConvertItems(value.items, Strip(inner), b).Ok?
    ensures ConvertValue(value, typeStr, b).Ok?
    ensures ConvertValue(value, typeStr, b).value.PyList?
    ensures |ConvertValue(value, typeStr, b).value.items| == |value.items|
    ensures forall k :: 0 <= k < |value.items| ==>
      ConvertItem(value.items[k], Strip(inner), b) == Ok(ConvertValue(value, typeStr, b).value.items[k])
  {
    ParseContainer(typeStr, name, inner);
    assert Dispatch(value, typeStr, b) == ConvertContainer(value, "list", Strip(inner), b);
  }

  // ---------------------------------------------------------------------
  // build_test_objects

  const SystemFields: set<string> := {"ID", "期望结果", "测试方法", "测试名称", "测试描述"}

  /** A case after converting the parameters listed in `paramTypes`, in
      their order; the first failing conversion raises. */
  function ConvertCase(case_: Dict<Value>, paramTypes: Dict<string>, b: Builtins): (r: Result<Dict<Value>, Exc>)
    decreases |paramTypes|
  {
    if paramTypes == [] then Ok(case_)
    else
      var (name, typ) := paramTypes[0];
      match Get(case_, name)
      case None => ConvertCase(case_, paramTypes[1..], b)
      case Some(v) =>
        if name in SystemFields || v.PyNone? || v == PyStr("") then ConvertCase(case_, paramTypes[1..], b)
        else
          match ConvertValue(v, typ, b)
          case Ok(x) => ConvertCase(Set(case_, name, x), paramTypes[1..], b)
          case Err(e) =>
            if e.kind == ValueError then
              Err(Exc(ValueError, "用例ID " + b.toStr(Get(case_, "ID").GetOr(PyStr("unknown")))
                                  + ", 参数 " + name + ": " + e.msg))
            else Err(e)
  }

  /** A converted case has the keys of the original in the same order, and
      keeps the value of every system field, every `None` or empty value
      and every key that is not a declared parameter. */
  lemma {:induction false} ConvertCaseKeeps(case_: Dict<Value>, paramTypes: Dict<string>, b: Builtins, k: string)
    requires ConvertCase(case_, paramTypes, b).Ok?
    requires k in SystemFields || !HasKey(paramTypes, k)
             || Get(case_, k) in {None, Some(PyNone), Some(PyStr(""))}
    ensures Keys(ConvertCase(case_, paramTypes, b).value) == Keys(case_)
    ensures Get(ConvertCase(case_, paramTypes, b).value, k) == Get(case_, k)
    decreases |paramTypes|
  {
    if paramTypes != [] {
      var (name, typ) := paramTypes[0];
      var rest := paramTypes[1..];
      assert HasKey(paramTypes, k) && paramTypes[0].0 != k ==> HasKey(rest, k) by {
        if HasKey(paramTypes, k) && paramTypes[0].0 != k {
          var i :| 0 <= i < |paramTypes| && paramTypes[i].0 == k;
          assert rest[i - 1].0 == k;
        }
      }
      match Get(case_, name)
      case None => ConvertCaseKeeps(case_, rest, b, k);
      case Some(v) =>
        if name in SystemFields || v.PyNone? || v == PyStr("") {
          ConvertCaseKeeps(case_, rest, b, k);
        } else {
          var x := ConvertValue(v, typ, b).value;
          GetSet(case_, name, x, k);
          ConvertCaseKeeps(Set(case_, name, x), rest, b, k);
        }
    }
  }

  /** `build_test_objects(test_cases, param_types)`: every case converted in
      order; the first failing case raises. */
  function BuildCases(cases: seq<Dict<Value>>, paramTypes: Dict<string>, b: Builtins): (r: Result<seq<Dict<Value>>, Exc>)
    ensures r.Ok? ==> (|r.value| == |cases|
      && forall i :: 0 <= i < |cases| ==> ConvertCase(cases[i], paramTypes, b) == Ok(r.value[i]))
    decreases |cases|
  {
    if cases == [] then Ok([])
    else
      match ConvertCase(cases[0], paramTypes, b)
      case Err(e) => Err(e)
      case Ok(c) =>
        match BuildCases(cases[1..], paramTypes, b)
        case Err(e) => Err(e)
        case Ok(cs) => Ok([c] + cs)
  }

  /** The builder's loops: copy each case and overwrite its converted
      parameters one by one. */
  method BuildTestObjects(cases: seq<Dict<Value>>, paramTypes: Dict<string>, b: Builtins)
    returns (r: Result<seq<Dict<Value>>, Exc>)
    ensures r == BuildCases(cases, paramTypes, b)
  {
    var converted: seq<Dict<Value>> := [];
    var i := 0;
    assert cases[0..] == cases;
    if BuildCases(cases, paramTypes, b).Ok? {
      assert [] + BuildCases(cases, paramTypes, b).value == BuildCases(cases, paramTypes, b).value;
    }
    while i < |cases|
      invariant 0 <= i <= |cases|
      invariant BuildCases(cases, paramTypes, b) == Prepend(converted, BuildCases(cases[i..], paramTypes, b))
    {
      var one := ConvertOneCase(cases[i], paramTypes, b);
      BuildCasesStep(converted, cases, i, paramTypes, b);
      if one.Err? {
        return Err(one.error);
      }
      converted := converted + [one.value];
      i := i + 1;
    }
    assert cases[i..] == [];
    assert converted + [] == converted;
    return Ok(converted);
  }

  /** One pass of the builder's outer loop: a failing case ends the build
      with its error, and a converted case moves to the done part. */
  lemma BuildCasesStep(converted: seq<Dict<Value>>, cases: seq<Dict<Value>>, i: nat,
                       paramTypes: Dict<string>, b: Builtins)
    requires i < |cases|
    ensures ConvertCase(cases[i], paramTypes, b).Err? ==>
      Prepend(converted, BuildCases(cases[i..], paramTypes, b)) == Err(ConvertCase(cases[i], paramTypes, b).error)
    ensures ConvertCase(cases[i], paramTypes, b).Ok? ==>
      Prepend(converted, BuildCases(cases[i..], paramTypes, b)) ==
      Prepend(converted + [ConvertCase(cases[i], paramTypes, b).value], BuildCases(cases[i + 1..], paramTypes, b))
  {
    assert cases[i..][0] == cases[i] && cases[i..][1..] == cases[i + 1..];
    var tail := BuildCases(cases[i + 1..], paramTypes, b);
    if ConvertCase(cases[i], paramTypes, b).Ok? && tail.Ok? {
      var c := ConvertCase(cases[i], paramTypes, b).value;
      assert converted + ([c] + tail.value) == (converted + [c]) + tail.value;
    }
  }

  /** The inner loop over `param_types.items()` for one case. */
  method ConvertOneCase(case_: Dict<Value>, paramTypes: Dict<string>, b: Builtins)
    returns (r: Result<Dict<Value>, Exc>)
    ensures r == ConvertCase(case_, paramTypes, b)
  {
    var convertedCase := case_;
    var j := 0;
    while j < |paramTypes|
      invariant 0 <= j <= |paramTypes|
      invariant ConvertCase(case_, paramTypes, b) == ConvertCase(convertedCase, paramTypes[j..], b)
      invariant Get(convertedCase, "ID") == Get(case_, "ID")
    {
      var (name, typ) := paramTypes[j];
      assert paramTypes[j..][1..] == paramTypes[j + 1..];
      var current := Get(convertedCase, name);
      if current.Some? && name !in SystemFields {
        var v := current.value;
        if !(v.PyNone? || v == PyStr("")) {
          var x := ConvertValue(v, typ, b);
          if x.Err? {
            if x.error.kind == ValueError {
              return Err(Exc(ValueError, "用例ID " + b.toStr(Get(case_, "ID").GetOr(PyStr("unknown")))
                                         + ", 参数 " + name + ": " + x.error.msg));
            }
            return Err(x.error);
          }
          GetSet(convertedCase, name, x.value, "ID");
          convertedCase := Set(convertedCase, name, x.value);
        }
      }
      j := j + 1;
    }
    return Ok(convertedCase);
  }
}
