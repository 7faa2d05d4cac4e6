/** The extension's settings, and the rewrite of the deprecated
    `formatVarsOnSave` setting into the format section's list of extensions
    not formatted on save. */
module Configuration {
  import opened Wrappers
  import JsArray

  /** The extension that `formatVarsOnSave` used to control. */
  const VarsExtension: string := ".tfvars"

  datatype IndexingConfiguration = IndexingConfiguration(
    enabled: bool, indexerPath: string, liveIndexing: bool, liveIndexingDelay: int)

  /** The `format` section. The settings object hands out this section as
      one shared object, so a change made through the returned settings is a
      change of the raw settings too. */
  class FormatConfiguration {
    var enable: bool
    var ignoreExtensions: seq<string>
    var ignoreExtensionsOnSave: seq<string>

    constructor (enable: bool, ignoreExtensions: seq<string>, ignoreExtensionsOnSave: seq<string>)
      ensures this.enable == enable && this.ignoreExtensions == ignoreExtensions
      ensures this.ignoreExtensionsOnSave == ignoreExtensionsOnSave
    {
      this.enable := enable;
      this.ignoreExtensions := ignoreExtensions;
      this.ignoreExtensionsOnSave := ignoreExtensionsOnSave;
    }
  }

  /** The settings; `formatVarsOnSave` and `lintConfig` may be unset. */
  datatype TerraformConfiguration = TerraformConfiguration(
    formatOnSave: bool,
    formatVarsOnSave: Option<bool>,
    path: string,
    templateDirectory: string,
    lintPath: string,
    lintConfig: Option<string>,
    indexing: IndexingConfiguration,
    format: FormatConfiguration)

  /** The on-save ignore list once the deprecated setting is honoured: unless
      `formatVarsOnSave` is explicitly true, `.tfvars` files are not
      formatted on save, and the extension is added at the end when the list
      lacks it. */
  function IgnoreOnSave(list: seq<string>, formatVarsOnSave: Option<bool>): (r: seq<string>)
    ensures |list| <= |r| <= |list| + 1 && r[..|list|] == list
    ensures formatVarsOnSave != Some(true) ==> VarsExtension in r
    ensures formatVarsOnSave == Some(true) || VarsExtension in list ==> r == list
  {
    if formatVarsOnSave != Some(true) && VarsExtension !in list then list + [VarsExtension] else list
  }

  /** Honouring the deprecated setting a second time changes nothing. */
  lemma IgnoreOnSaveIdempotent(list: seq<string>, formatVarsOnSave: Option<bool>)
    ensures IgnoreOnSave(IgnoreOnSave(list, formatVarsOnSave), formatVarsOnSave) == IgnoreOnSave(list, formatVarsOnSave)
  {
  }

  /** `.tfvars` is never listed twice by the rewrite: it occurs in the result
      as often as in the list, or once if the list lacks it and the deprecated
      setting is not true. */
  lemma {:induction false} IgnoreOnSaveAddsOnce(list: seq<string>, formatVarsOnSave: Option<bool>)
    ensures multiset(IgnoreOnSave(list, formatVarsOnSave))[VarsExtension] ==
      if formatVarsOnSave != Some(true) && multiset(list)[VarsExtension] == 0 then 1 else multiset(list)[VarsExtension]
  {
    var r := IgnoreOnSave(list, formatVarsOnSave);
    if formatVarsOnSave != Some(true) && VarsExtension !in list {
      assert r == list + [VarsExtension];
      assert multiset(r) == multiset(list) + multiset{VarsExtension};
    }
  }

  /** `getConfiguration`: the settings copied field by field from the raw
      ones, sharing the format section, whose on-save ignore list is
      rewritten in place for the deprecated setting. */
  method GetConfiguration(raw: TerraformConfiguration) returns (config: TerraformConfiguration)
    modifies raw.format
    ensures config == raw
    ensures raw.format.ignoreExtensionsOnSave == IgnoreOnSave(old(raw.format.ignoreExtensionsOnSave), raw.formatVarsOnSave)
    ensures raw.format.enable == old(raw.format.enable) && raw.format.ignoreExtensions == old(raw.format.ignoreExtensions)
  {
    config := TerraformConfiguration(raw.formatOnSave, raw.formatVarsOnSave, raw.path, raw.templateDirectory,
                                     raw.lintPath, raw.lintConfig, raw.indexing, raw.format);
    if config.formatVarsOnSave != Some(true) && JsArray.IndexOf(config.format.ignoreExtensionsOnSave, VarsExtension) == -1 {
      config.format.ignoreExtensionsOnSave := config.format.ignoreExtensionsOnSave + [VarsExtension];
    }
  }
}
