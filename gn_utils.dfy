/**
 The module-level string helpers of the GN build-description tool
 (android/tools/gn2bp/gn_utils.py): cleaning a string taken from build
 arguments, and turning GN labels into paths and toolchain-free labels.
 */
module GnUtils {
  import opened PyStrings

  /**
   _clean_string: drop every backslash, then every "../../", then every double
   quote, then strip whitespace from both ends. What comes out has no backslash,
   no double quote and no whitespace at either end.
   */
  function CleanString(s: string): (r: string)
    ensures '\\' !in r && '"' !in r
    ensures r == [] || (!IsPySpace(r[0]) && !IsPySpace(r[|r| - 1]))
  {
    var noBackslash := Replace(s, "\\", "");
    var noUp := Replace(noBackslash, "../../", "");
    var noQuote := Replace(noUp, "\"", "");
    ReplaceRemovesChar(s, '\\');
    ReplaceRemovesChar(noUp, '"');
    var r := Strip(noQuote);
    assert forall ch :: ch in r ==> ch in noQuote;
    r
  }

  /** label_to_path: a label "//dir/file" names the path "dir/file"; the root label "//" names "./". */
  function LabelToPath(gnLabel: string): (r: string)
    requires StartsWith(gnLabel, "//")
    ensures |gnLabel| == 2 ==> r == "./"
    ensures |gnLabel| > 2 ==> gnLabel == "//" + r
  {
    if |gnLabel| == 2 then "./" else gnLabel[2..]
  }

  /** label_without_toolchain: the label up to its parenthesised toolchain, if any. */
  function LabelWithoutToolchain(gnLabel: string): (r: string)
    ensures '(' !in r && r <= gnLabel
    ensures |r| < |gnLabel| ==> gnLabel[|r|] == '('
  {
    BeforeFirst(gnLabel, '(')
  }
}
