/** The disease detector front end: choosing the detector script for a
    plant's model type, reading the detector's verdict from its standard
    output, and the extension check on an uploaded photo. Running the
    script is a parameter (`run`, from the command line to the captured
    standard output), and so is Python's `float()` on the confidence text
    (`parseFloat`). */
module DetectService {
  import opened Wrappers
  import opened PyText
  import opened DiseaseMap

  /** The Python exceptions `detect` can raise. */
  datatype PyError = ValueError(message: string) | IndexError

  datatype Detection = Detection(disease: string, confidence: real)

  datatype HttpError = HttpError(status: int, detail: string)

  // ---------------------------------------------------------------------
  // Model selection

  const Unsupported := ValueError("model_type not supported")

  /** The detector script for a model type: "Grape" and "Potato" only. */
  function ModelScript(modelType: string): (r: Result<string, PyError>)
    ensures r.Ok? <==> modelType == "Grape" || modelType == "Potato"
    ensures r.Ok? ==> r.value == modelType + "_defect.py"
    ensures r.Err? ==> r.error == Unsupported
  {
    if modelType == "Grape" then Ok("Grape_defect.py")
    else if modelType == "Potato" then Ok("Potato_defect.py")
    else Err(Unsupported)
  }

  /** The model types of the plant table are exactly the ones the
      detector accepts. */
  lemma PlantTypesAreModels()
    ensures forall t :: t in PlantNameMap().Values <==> ModelScript(t).Ok?
  {
    assert PlantNameMap()["葡萄"] == "Grape" && PlantNameMap()["马铃薯"] == "Potato";
    assert PlantNameMap().Values == {"Grape", "Potato"};
  }

  /** The command line the detector is started with. */
  function Command(ultralyticsPath: string, script: string, imagePath: string): seq<string> {
    ["python", PathJoin(ultralyticsPath, script), "--image_path", imagePath]
  }

  // ---------------------------------------------------------------------
  // The standard-output parser

  /** A line that mentions both the class and the confidence. */
  predicate IsDetectionLine(line: string) {
    Contains(line, "类别") && Contains(line, "置信度")
  }

  /** The value after ": " in one ", "-separated field; a field with no
      ": " raises `IndexError`. */
  function FieldValue(field: string): (r: Result<string, PyError>)
    ensures r.Err? ==> r.error == IndexError
  {
    var kv := Split(field, ": ");
    if |kv| < 2 then Err(IndexError) else Ok(kv[1])
  }

  /** The message `float()` raises for text it cannot read; Python quotes
      the text as its `repr`, which for text without quotes, backslashes or
      unprintable characters is the text between single quotes. */
  function FloatError(text: string): PyError
  {
    ValueError("could not convert string to float: '" + text + "'")
  }

  /** How a detection line is read: the class label from the first field,
      the confidence from the second. */
  function ParseLine(line: string, parseFloat: string -> Option<real>): (r: Result<Detection, PyError>)
    ensures r.Ok? ==> FieldValue(Split(line, ", ")[0]) == Ok(r.value.disease)
  {
    var parts := Split(line, ", ");
    match FieldValue(parts[0])
    case Err(e) => Err(e)
    case Ok(cls) =>
      if |parts| < 2 then Err(IndexError)
      else match FieldValue(parts[1])
        case Err(e) => Err(e)
        case Ok(text) =>
          match parseFloat(text)
          case None => Err(FloatError(text))
          case Some(conf) => Ok(Detection(cls, conf))
  }

  /** The verdict of a list of lines: the first detection line decides,
      later lines are ignored, and without one there is no verdict. */
  function ParseLines(lines: seq<string>, parseFloat: string -> Option<real>)
    : (r: Result<Option<Detection>, PyError>)
    ensures r == Ok(None) <==> forall k :: 0 <= k < |lines| ==> !IsDetectionLine(lines[k])
  {
    if lines == [] then Ok(None)
    else if IsDetectionLine(lines[0]) then
      match ParseLine(lines[0], parseFloat)
      case Ok(d) => Ok(Some(d))
      case Err(e) => Err(e)
    else
      assert forall k :: 1 <= k < |lines| ==> lines[k] == lines[1..][k - 1];
      ParseLines(lines[1..], parseFloat)
  }

  /** Lines before the first detection line, and every line after it, do
      not affect the verdict. */
  lemma {:induction false} FirstDetectionLineWins(pre: seq<string>, line: string, post: seq<string>,
                                                 parseFloat: string -> Option<real>)
    requires forall k :: 0 <= k < |pre| ==> !IsDetectionLine(pre[k])
    requires IsDetectionLine(line)
    ensures ParseLines(pre + [line] + post, parseFloat) ==
      match ParseLine(line, parseFloat)
      case Ok(d) => Ok(Some(d))
      case Err(e) => Err(e)
    decreases |pre|
  {
    var all := pre + [line] + post;
    if pre == [] {
      assert all[0] == line;
    } else {
      assert all[0] == pre[0];
      assert all[1..] == pre[1..] + [line] + post;
      FirstDetectionLineWins(pre[1..], line, post, parseFloat);
    }
  }

  /** `detect`'s loop over `stdout.splitlines()`, stopping at the first
      detection line. */
  method ParseStdout(stdout: string, parseFloat: string -> Option<real>)
    returns (r: Result<Option<Detection>, PyError>)
    ensures r == ParseLines(SplitLines(stdout), parseFloat)
  {
    var lines := SplitLines(stdout);
    var i := 0;
    r := Ok(None);
    while i < |lines|
      invariant 0 <= i <= |lines|
      invariant ParseLines(lines, parseFloat) == ParseLines(lines[i..], parseFloat)
    {
      var line := lines[i];
      if IsDetectionLine(line) {
        assert lines[i..][0] == line;
        var parts := Split(line, ", ");
        var cls := FieldValue(parts[0]);
        if cls.Err? {
          return Err(cls.error);
        }
        if |parts| < 2 {
          return Err(IndexError);
        }
        var text := FieldValue(parts[1]);
        if text.Err? {
          return Err(text.error);
        }
        var conf := parseFloat(text.value);
        if conf.None? {
          return Err(FloatError(text.value));
        }
        r := Ok(Some(Detection(cls.value, conf.value)));
        return;
      }
      assert lines[i..][1..] == lines[i + 1..];
      i := i + 1;
    }
  }

  /** `detect`: an unsupported model type fails before anything runs;
      otherwise the detector's output is parsed. */
  method Detect(modelType: string, imagePath: string, ultralyticsPath: string,
                run: seq<string> -> string, parseFloat: string -> Option<real>)
    returns (r: Result<Option<Detection>, PyError>)
    ensures ModelScript(modelType).Err? ==> r == Err(Unsupported)
    ensures ModelScript(modelType).Ok? ==>
      r == ParseLines(SplitLines(run(Command(ultralyticsPath, ModelScript(modelType).value, imagePath))), parseFloat)
  {
    var script := ModelScript(modelType);
    if script.Err? {
      return Err(script.error);
    }
    var stdout := run(Command(ultralyticsPath, script.value, imagePath));
    r := ParseStdout(stdout, parseFloat);
  }

  // ---------------------------------------------------------------------
  // The detector's printed line and the round trip

  /** The line the detector script prints: the class label, then the
      confidence already formatted with two decimals. */
  function PrintedLine(cls: string, confText: string): string {
    "类别: " + cls + ", 置信度: " + confText
  }

  /** A key-value field "key: value" whose key has no ':' and whose
      value has no ": " yields the value. */
  lemma KeyValue(key: string, value: string)
    requires ':' !in key && !Contains(value, ": ")
    ensures FieldValue(key + ": " + value) == Ok(value)
  {
    NoFirstCharNoContains(key, ": ");
    SplitAfterFirst(key, ": ", value);
    NotContainsNoMatch(value, ": ");
    SplitNone(value, ": ");
  }

  /** The two fields of a printed line, as long as neither the class
      label nor the confidence text contains ", " or ": ". */
  lemma PrintedLineParts(cls: string, confText: string)
    requires !Contains(cls, ", ") && !Contains(confText, ", ")
    ensures Split(PrintedLine(cls, confText), ", ") == ["类别: " + cls, "置信度: " + confText]
  {
    var head := "类别: " + cls;
    var tail := "置信度: " + confText;
    assert PrintedLine(cls, confText) == head + ", " + tail;
    NoFirstCharNoContains("类别: ", ", ");
    ConcatNoContains("类别: ", cls, ", ");
    NoFirstCharNoContains("置信度: ", ", ");
    ConcatNoContains("置信度: ", confText, ", ");
    SplitAfterFirst(head, ", ", tail);
    NotContainsNoMatch(tail, ", ");
    SplitNone(tail, ", ");
  }

  /** A printed line is a detection line. */
  lemma PrintedLineDetected(cls: string, confText: string)
    ensures IsDetectionLine(PrintedLine(cls, confText))
  {
    var line := PrintedLine(cls, confText);
    var rest := ": " + cls + ", " + "置信度" + ": " + confText;
    assert line == "" + "类别" + rest;
    ContainsMiddle("", "类别", rest);
    assert line == ("类别: " + cls + ", ") + "置信度" + (": " + confText);
    ContainsMiddle("类别: " + cls + ", ", "置信度", ": " + confText);
  }

  /** Reading back a printed line gives the printed class label and the
      confidence that `float()` reads from the printed text. */
  lemma ParsePrintedLine(cls: string, confText: string, parseFloat: string -> Option<real>)
    requires !Contains(cls, ", ") && !Contains(cls, ": ")
    requires !Contains(confText, ", ") && !Contains(confText, ": ")
    requires parseFloat(confText).Some?
    ensures IsDetectionLine(PrintedLine(cls, confText))
    ensures ParseLine(PrintedLine(cls, confText), parseFloat) == Ok(Detection(cls, parseFloat(confText).value))
  {
    PrintedLineDetected(cls, confText);
    PrintedLineParts(cls, confText);
    assert "类别: " + cls == "类别" + ": " + cls;
    KeyValue("类别", cls);
    assert "置信度: " + confText == "置信度" + ": " + confText;
    KeyValue("置信度", confText);
  }

  /** The round trip through the detector's standard output: whatever the
      detector printed before its verdict line (without a detection line)
      and after it, `detect` recovers the printed class label. */
  lemma DetectRecoversLabel(pre: seq<string>, cls: string, confText: string, post: seq<string>,
                            parseFloat: string -> Option<real>)
    requires forall k :: 0 <= k < |pre| ==> !IsDetectionLine(pre[k]) && NoLineBreak(pre[k])
    requires forall k :: 0 <= k < |post| ==> NoLineBreak(post[k])
    requires NoLineBreak(cls) && NoLineBreak(confText)
    requires !Contains(cls, ", ") && !Contains(cls, ": ")
    requires !Contains(confText, ", ") && !Contains(confText, ": ")
    requires parseFloat(confText).Some?
    ensures ParseLines(SplitLines(JoinLines(pre + [PrintedLine(cls, confText)] + post)), parseFloat) ==
      Ok(Some(Detection(cls, parseFloat(confText).value)))
  {
    var line := PrintedLine(cls, confText);
    PrintedLineOneLine(cls, confText);
    AllOneLine(pre, line, post);
    SplitJoinLines(pre + [line] + post);
    ParsePrintedLine(cls, confText, parseFloat);
    FirstDetectionLineWins(pre, line, post, parseFloat);
  }

  lemma PrintedLineOneLine(cls: string, confText: string)
    requires NoLineBreak(cls) && NoLineBreak(confText)
    ensures NoLineBreak(PrintedLine(cls, confText))
  {
    var line := PrintedLine(cls, confText);
    var head := "类别: " + cls + ", 置信度: ";
    assert line == head + confText;
    forall k | 0 <= k < |line| ensures !IsLineBreak(line[k]) {
      if k < 4 {
        assert line[k] == "类别: "[k];
      } else if k < 4 + |cls| {
        assert line[k] == cls[k - 4];
      } else if k < |head| {
        assert line[k] == ", 置信度: "[k - 4 - |cls|];
      } else {
        assert line[k] == confText[k - |head|];
      }
    }
  }

  lemma AllOneLine(pre: seq<string>, line: string, post: seq<string>)
    requires forall k :: 0 <= k < |pre| ==> NoLineBreak(pre[k])
    requires forall k :: 0 <= k < |post| ==> NoLineBreak(post[k])
    requires NoLineBreak(line)
    ensures forall k :: 0 <= k < |pre + [line] + post| ==> NoLineBreak((pre + [line] + post)[k])
  {
    var all := pre + [line] + post;
    forall k | 0 <= k < |all| ensures NoLineBreak(all[k]) {
      if k < |pre| { assert all[k] == pre[k]; }
      else if k > |pre| { assert all[k] == post[k - |pre| - 1]; }
    }
  }

  // ---------------------------------------------------------------------
  // The upload check of `do_detect`

  /** The extensions `do_detect` accepts, compared as written. */
  predicate UploadExtensionOk(filename: string) {
    Ext(filename) in {".jpg", ".jpeg", ".png"}
  }

  /** The checks `do_detect` makes before saving the upload: the plot's
      plant must have a detector, then the file name must carry one of the
      accepted extensions. On success: the model type and the stored
      file name (the fresh identifier `uuid` followed by the extension). */
  function PrepareUpload(plantName: string, filename: string, uuid: string)
    : (r: Result<(string, string), HttpError>)
    ensures plantName !in PlantNameMap() ==> r == Err(HttpError(404, "未收录的植物: " + plantName))
    ensures plantName in PlantNameMap() && !UploadExtensionOk(filename) ==>
      r == Err(HttpError(400, "请上传.jpg图片"))
    ensures r.Ok? <==> plantName in PlantNameMap() && UploadExtensionOk(filename)
    ensures r.Ok? ==> ModelScript(r.value.0).Ok? && r.value.1 == uuid + Ext(filename)
  {
    if plantName !in PlantNameMap() then Err(HttpError(404, "未收录的植物: " + plantName))
    else if !UploadExtensionOk(filename) then Err(HttpError(400, "请上传.jpg图片"))
    else Ok((PlantNameMap()[plantName], uuid + Ext(filename)))
  }

  /** An illustration of the case-sensitive upload check, on the names
      ending in ".JPG": they are refused. The general rule is the
      `r.Ok? <==>` clause of `PrepareUpload`. */
  lemma UpperCaseUploadRefused(stem: string)
    requires stem != [] && '.' !in stem && '/' !in stem
    ensures !UploadExtensionOk(stem + ".JPG")
  {
    UpperJpgExt(stem);
    assert ".JPG"[1] != ".jpg"[1] && |".JPG"| != |".jpeg"| && ".JPG"[1] != ".png"[1];
  }

  lemma UpperJpgExt(stem: string)
    requires stem != [] && '.' !in stem && '/' !in stem
    ensures Ext(stem + ".JPG") == ".JPG"
  {
    assert stem + ".JPG" == stem + "." + "JPG";
    ExtOfName(stem, "JPG");
  }
}
