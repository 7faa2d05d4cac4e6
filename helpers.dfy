/** Small helpers shared by the providers. */
module Helpers {
  import opened Wrappers
  import opened JsString
  import Editor

  /** Terraform files are recognised by language and by extension. */
  predicate IsTerraformDocument(document: Editor.TextDocument)
    ensures document.languageId != "terraform" ==> !IsTerraformDocument(document)
    ensures document.languageId == "terraform" ==>
      (IsTerraformDocument(document) <==> EndsWith(document.fileName, ".tf") || EndsWith(document.fileName, ".tfvars"))
  {
    if document.languageId != "terraform" then false
    else EndsWith(document.fileName, ".tf") || EndsWith(document.fileName, ".tfvars")
  }

  /** The first element of `sequence`, or `result` (`null` when omitted) for
      an empty one. */
  function First<T>(sequence: seq<T>, result: Option<T> := None): (r: Option<T>)
    ensures |sequence| == 0 ==> r == result
    ensures |sequence| > 0 ==> r == Some(sequence[0])
  {
    if |sequence| > 0 then Some(sequence[0]) else result
  }
}
