/** Properties of the GN string helpers. */
module GnUtilsProperties {
  import opened PyStrings
  import opened GnUtils

  /** A cleaned string that cannot be cleaned any further comes back unchanged. */
  lemma CleanStringFixpoint(s: string)
    requires '\\' !in s && '"' !in s && !Contains(s, "../../")
    requires s == [] || (!IsPySpace(s[0]) && !IsPySpace(s[|s| - 1]))
    ensures CleanString(s) == s
  {
    AbsentCharNotContained(s, '\\');
    ReplaceAbsent(s, "\\", "");
    ReplaceAbsent(s, "../../", "");
    AbsentCharNotContained(s, '"');
    ReplaceAbsent(s, "\"", "");
    StripStripped(s);
  }

  /**
   Removing the quotes last can join two halves of "../../", so one cleaning
   does not always remove every "../../" and cleaning twice can differ from
   cleaning once.
   */
  lemma CleanStringNotIdempotent()
    ensures CleanString("..\"/../") == "../../"
    ensures CleanString(CleanString("..\"/../")) == ""
  {
    CleanSplitUpDir();
    CleanUpDir();
  }

  lemma CleanSplitUpDir()
    ensures CleanString("..\"/../") == "../../"
  {
    var s := "..\"/../";
    AbsentCharNotContained(s, '\\');
    ReplaceAbsent(s, "\\", "");
    SplitUpDirHasNoUpDir();
    ReplaceAbsent(s, "../../", "");
    DroppingQuoteJoinsUpDir();
    StripStripped("../../");
  }

  lemma CleanUpDir()
    ensures CleanString("../../") == ""
  {
    var t := "../../";
    AbsentCharNotContained(t, '\\');
    ReplaceAbsent(t, "\\", "");
    assert Replace(t, "../../", "") == "";
  }

  lemma SplitUpDirHasNoUpDir()
    ensures !Contains("..\"/../", "../../")
  {
    var s := "..\"/../";
    assert s[..6][2] == '"';
    assert s[1..][..6][1] == '"';
    assert !StartsWith(s, "../../") && !StartsWith(s[1..], "../../");
    assert |s[2..]| < 6;
  }

  lemma DroppingQuoteJoinsUpDir()
    ensures Replace("..\"/../", "\"", "") == "../../"
  {
    var s := "..\"/../";
    AbsentCharNotContained(s[3..], '"');
    ReplaceAbsent(s[3..], "\"", "");
    assert s[2..][..1] == "\"";
    assert s[1..][..1] != "\"";
    assert s[..1] != "\"";
  }

  /** label_to_path undoes prefixing a non-empty path with "//". */
  lemma LabelToPathInverse(path: string)
    requires path != []
    ensures LabelToPath("//" + path) == path
  {
  }

  /** Text without '(' is its own gnLabel without toolchain. */
  lemma {:induction false} BeforeFirstAbsent(s: string, sep: char)
    requires sep !in s
    ensures BeforeFirst(s, sep) == s
  {
    if s != [] {
      BeforeFirstAbsent(s[1..], sep);
      assert s == [s[0]] + s[1..];
    }
  }

  /** Stripping the toolchain twice is stripping it once. */
  lemma LabelWithoutToolchainIdempotent(gnLabel: string)
    ensures LabelWithoutToolchain(LabelWithoutToolchain(gnLabel)) == LabelWithoutToolchain(gnLabel)
  {
    BeforeFirstAbsent(LabelWithoutToolchain(gnLabel), '(');
  }

  /** A label is its toolchain-free part followed by the toolchain text, which starts at a '('. */
  lemma LabelSplitsAtToolchain(name: string, toolchain: string)
    requires '(' !in name
    ensures LabelWithoutToolchain(name + "(" + toolchain) == name
    decreases |name|
  {
    if name != [] {
      assert (name + "(" + toolchain)[1..] == name[1..] + "(" + toolchain;
      LabelSplitsAtToolchain(name[1..], toolchain);
    }
  }
}
