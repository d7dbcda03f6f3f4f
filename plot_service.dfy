/** The icon check of the plot service: a plant icon is served only when
    its file exists under the resource directory and carries an image
    extension, in any letter case. File existence is a parameter. */
module PlotService {
  import opened PyText
  import DetectService

  /** The image extensions the service accepts (in lower case). */
  const AllowedImageTypes: set<string> := {".jpg", ".jpeg", ".png"}

  const Missing := "图片不存在"
  const BadExtension := "不支持此拓展名"

  /** `validate_image_file`: existence first, then the lower-cased
      extension, and otherwise the public URL of the icon. */
  function ValidateImageFile(url: string, resourcePath: string, fileExists: string -> bool): (r: string)
    ensures !fileExists(PathJoin(resourcePath, url)) ==> r == Missing
    ensures fileExists(PathJoin(resourcePath, url)) && Lower(Ext(url)) !in AllowedImageTypes ==> r == BadExtension
    ensures fileExists(PathJoin(resourcePath, url)) && Lower(Ext(url)) in AllowedImageTypes ==>
      r == "/resource/" + url
  {
    var iconPath := PathJoin(resourcePath, url);
    ExtOfJoin(resourcePath, url);
    if !fileExists(iconPath) then Missing
    else if Lower(Ext(iconPath)) !in AllowedImageTypes then BadExtension
    else "/resource/" + url
  }

  /** The result is a served URL exactly when neither check fails, and it
      never reads like one of the two messages. */
  lemma ServedOrMessage(url: string, resourcePath: string, fileExists: string -> bool)
    ensures var r := ValidateImageFile(url, resourcePath, fileExists);
      (StartsWith(r, "/resource/") <==> fileExists(PathJoin(resourcePath, url)) && Lower(Ext(url)) in AllowedImageTypes)
  {
    var r := ValidateImageFile(url, resourcePath, fileExists);
    assert Missing[0] != '/' && BadExtension[0] != '/';
    if StartsWith(r, "/resource/") {
      assert r[0] == '/';
    }
  }

  /** An illustration of the case-insensitive icon check, on the names
      ending in ".JPG": an existing one is served, because the extension is
      lower-cased first. The general rule is `ServedOrMessage`. */
  lemma UpperCaseIconAccepted(stem: string, resourcePath: string, fileExists: string -> bool)
    requires stem != [] && '.' !in stem && '/' !in stem
    requires fileExists(PathJoin(resourcePath, stem + ".JPG"))
    ensures ValidateImageFile(stem + ".JPG", resourcePath, fileExists) == "/resource/" + (stem + ".JPG")
  {
    UpperJpgExt(stem);
  }

  lemma UpperJpgExt(stem: string)
    requires stem != [] && '.' !in stem && '/' !in stem
    ensures Lower(Ext(stem + ".JPG")) == ".jpg"
  {
    DetectService.UpperJpgExt(stem);
    LowerJpg();
  }

  lemma LowerJpg()
    ensures Lower(".JPG") == ".jpg"
  {
    var low := Lower(".JPG");
    assert |low| == 4 && low[0] == '.' && low[1] == 'j' && low[2] == 'p' && low[3] == 'g';
  }

  /** The same photo name is refused by the upload check of the detector,
      which compares extensions as written. */
  lemma UploadCheckIsStricter(stem: string, resourcePath: string, fileExists: string -> bool)
    requires stem != [] && '.' !in stem && '/' !in stem
    requires fileExists(PathJoin(resourcePath, stem + ".JPG"))
    ensures ValidateImageFile(stem + ".JPG", resourcePath, fileExists) != BadExtension
    ensures !DetectService.UploadExtensionOk(stem + ".JPG")
  {
    UpperCaseIconAccepted(stem, resourcePath, fileExists);
    DetectService.UpperCaseUploadRefused(stem);
  }
}
