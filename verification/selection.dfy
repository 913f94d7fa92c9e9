/**
 * The two one-line rules of main.js about the chosen files: the merge
 * button is disabled unless both slots hold a file, and a file is previewed
 * only when its MIME type starts with "image/".
 */
module Selection {

  /** A chosen `File`: its name and its declared MIME type (`file.type`). */
  datatype PickedFile = PickedFile(name: string, mimeType: string)

  /**
   * The JavaScript values `input.files[0]` can take: `undefined` for an
   * empty slot, or the chosen `File` object.
   */
  datatype JsValue = Undefined | FileValue(file: PickedFile)

  const ImagePrefix: string := "image/"

  /**
   * `file.type.startsWith("image/")`: a case-sensitive prefix test on the
   * declared type; the file's contents are not looked at.
   */
  function IsImageType(mimeType: string): (r: bool)
    ensures r <==> exists subtype :: mimeType == ImagePrefix + subtype
  {
    assert ImagePrefix <= mimeType ==> mimeType == ImagePrefix + mimeType[|ImagePrefix|..];
    ImagePrefix <= mimeType
  }

  /** Types the rule accepts and types it refuses. */
  lemma ImageTypeExamples()
    ensures IsImageType("image/png") && IsImageType("image/jpeg") && IsImageType("image/")
    ensures !IsImageType("IMAGE/PNG") && !IsImageType("image") && !IsImageType("")
    ensures !IsImageType("application/pdf") && !IsImageType("text/image/png")
  {
    assert "image/png" == ImagePrefix + "png";
    assert "image/jpeg" == ImagePrefix + "jpeg";
    assert "image/" == ImagePrefix + "";
    assert "IMAGE/PNG"[0] != ImagePrefix[0];
    assert "application/pdf"[0] != ImagePrefix[0];
    assert "text/image/png"[0] != ImagePrefix[0];
  }

  /** JavaScript truthiness: `undefined` is falsy, every object is truthy. */
  predicate Truthy(v: JsValue) {
    v.FileValue?
  }

  /**
   * JavaScript's `a && b`: `a` itself when it is falsy, otherwise `b`. The
   * result is one of the operands, not a boolean.
   */
  function JsAnd(a: JsValue, b: JsValue): (r: JsValue)
    ensures r == a || r == b
    ensures Truthy(r) <==> Truthy(a) && Truthy(b)
  {
    if !Truthy(a) then a else b
  }

  /**
   * `mergeBtn.disabled = !(topFile && bottomFile)`, set after every change
   * of selection and again when a merge finishes. The button is enabled
   * exactly when both slots hold a file.
   */
  function MergeDisabled(topFile: JsValue, bottomFile: JsValue): (disabled: bool)
    ensures !disabled <==> topFile.FileValue? && bottomFile.FileValue?
  {
    !Truthy(JsAnd(topFile, bottomFile))
  }

  /**
   * The rule looks at presence only: two chosen files enable the merge
   * whatever their types, so a slot whose file failed the image check still
   * counts as filled.
   */
  lemma MergeIgnoresType(topFile: PickedFile, bottomFile: PickedFile)
    ensures !MergeDisabled(FileValue(topFile), FileValue(bottomFile))
  {
  }
}
