/** Properties of the GN parser's desc-reading helpers and of its memo table. */
module GnParserProperties {
  import opened Wrappers
  import opened PyStrings
  import opened BaseStrings
  import opened GnUtils
  import opened GnTarget
  import opened GnParser

  /** Without any `--plugin=` argument the plugin is "proto". */
  lemma {:induction false} PluginFromArgsDefault(args: seq<string>)
    requires forall i :: 0 <= i < |args| ==> !StartsWith(args[i], PluginFlag)
    ensures PluginFromArgs(args) == DefaultPlugin
  {
    if args != [] {
      PluginFromArgsDefault(args[..|args| - 1]);
    }
  }

  /** The last `--plugin=` argument wins: arguments after it that are not plugins change nothing. */
  lemma {:induction false} PluginFromArgsLastWins(pre: seq<string>, arg: string, post: seq<string>)
    requires StartsWith(arg, PluginFlag)
    requires forall i :: 0 <= i < |post| ==> !StartsWith(post[i], PluginFlag)
    ensures PluginFromArgs(pre + [arg] + post) == PluginName(arg)
    decreases |post|
  {
    var args := pre + [arg] + post;
    if post == [] {
      assert args[|args| - 1] == arg;
    } else {
      var shorter := post[..|post| - 1];
      var last := post[|post| - 1];
      assert args == (pre + [arg] + shorter) + [last];
      PluginFromArgsLastWins(pre, arg, shorter);
      PluginFromArgsSkips(pre + [arg] + shorter, last);
    }
  }

  /** An argument that is not a plugin leaves the plugin as it was. */
  lemma PluginFromArgsSkips(args: seq<string>, last: string)
    requires !StartsWith(last, PluginFlag)
    ensures PluginFromArgs(args + [last]) == PluginFromArgs(args)
  {
    assert (args + [last])[..|args|] == args;
  }

  /**
   A plugin argument `<flag>=<dir>/<name>_plugin` names the plugin `name`: the text after the
   last '=', then after the last '/', with the "_plugin" suffix removed.
   */
  lemma PluginNameOfPath(flag: string, dir: string, name: string)
    requires '=' !in dir && '=' !in name && '/' !in name && '_' !in name
    ensures PluginName(flag + "=" + dir + "/" + name + "_plugin") == name
  {
    var file := name + "_plugin";
    var path := dir + "/" + file;
    assert flag + "=" + dir + "/" + name + "_plugin" == flag + ['='] + path;
    AfterLastSplit(flag, '=', path);
    assert path == dir + ['/'] + file;
    AfterLastSplit(dir, '/', file);
    DropSuffix(name);
  }

  /** A plugin argument `<flag>=<name>_plugin`, without a directory, names the plugin `name`. */
  lemma PluginNameOfFile(flag: string, name: string)
    requires '=' !in name && '/' !in name && '_' !in name
    ensures PluginName(flag + "=" + name + "_plugin") == name
  {
    var file := name + "_plugin";
    assert flag + "=" + name + "_plugin" == flag + ['='] + file;
    AfterLastSplit(flag, '=', file);
    assert AfterLast(file, '/') == file;
    DropSuffix(name);
  }

  /** Removing "_plugin" from `name + "_plugin"` leaves `name` when `name` has no '_'. */
  lemma DropSuffix(name: string)
    requires '_' !in name
    ensures Replace(name + "_plugin", "_plugin", "") == name
  {
    ReplaceSkipsClean(name, "_plugin", "_plugin", "");
    assert Replace("_plugin", "_plugin", "") == "";
  }

  /** A flag with exactly one '=' keeps its key and has its value wrapped in escaped quotes. */
  lemma FormatFlagQuotesValue(key: string, val: string)
    requires '=' !in key && '=' !in val
    ensures FormatFlag(key + "=" + val) == Some(key + "=\\\"" + val + "\\\"")
  {
    var flag := key + "=" + val;
    assert flag == key + ['='] + val;
    CountCharConcat(key + ['='], val, '=');
    CountCharConcat(key, ['='], '=');
    BeforeFirstSplit(key, '=', val);
    assert flag[|key| + 1..] == val;
  }

  /** A flag with two or more '=' makes the whole response file fail, as the split raises. */
  lemma ResponseFileFailsOnTwoEquals(flags: seq<string>, i: int)
    requires 0 <= i < |flags| && CountChar(flags[i], '=') >= 2
    ensures ResponseFileText(flags).None?
  {
  }

  /** Flags without '=' are passed through and joined by single spaces, in order. */
  lemma ResponseFileKeepsPlainFlags(flags: seq<string>)
    requires forall i :: 0 <= i < |flags| ==> '=' !in flags[i]
    ensures ResponseFileText(flags) == Some(Join(flags, " "))
  {
    var formatted := AllPresent(FormattedFlags(flags));
    assert formatted.Some?;
    assert forall i :: 0 <= i < |flags| ==> formatted.value[i] == flags[i];
    assert formatted.value == flags;
  }

  /**
   The shape of the example in the source, `['--flags', '--flag=true && false']`: a plain
   flag and a flag with one '=' become `--flags --flag=\"true && false\"`.
   */
  lemma ResponseFileTwoFlags(plain: string, key: string, val: string)
    requires '=' !in plain && '=' !in key && '=' !in val
    ensures ResponseFileText([plain, key + "=" + val]) == Some(plain + " " + key + "=\\\"" + val + "\\\"")
  {
    var flags := [plain, key + "=" + val];
    var quoted := key + "=\\\"" + val + "\\\"";
    FormatFlagQuotesValue(key, val);
    var formatted := AllPresent(FormattedFlags(flags));
    assert formatted.value == [plain, quoted];
    assert Join([plain, quoted], " ") == plain + " " + quoted;
    assert plain + " " + quoted == plain + " " + key + "=\\\"" + val + "\\\"";
  }

  /** The `_gen` action of `name(toolchain)` is `name_gen(toolchain)`, and of a bare `name` it is `name_gen`. */
  lemma GenTargetNameOf(name: string, toolchain: string)
    requires '(' !in name
    ensures GenTargetName(name + "(" + toolchain) == name + "_gen" + "(" + toolchain
    ensures GenTargetName(name) == name + "_gen"
  {
    LabelSplitTail(name, "(" + toolchain);
    assert name + "(" + toolchain == name + ("(" + toolchain);
    LabelSplitTail(name, []);
    assert name + [] == name;
  }

  /**
   Without the descriptor flag or source-set metadata, a target is a proto library exactly
   when its `_gen` action runs protoc_wrapper.py, and then that action's args pick the plugin.
   */
  lemma ProtoTargetNeedsProtocAction(gnDesc: map<string, Desc>, gnTargetName: string)
    requires gnTargetName in gnDesc
    requires DescriptorSetOutFlag !in gnDesc[gnTargetName].args
    requires ProtoLibrarySourcesKey !in gnDesc[gnTargetName].metadataKeys
    ensures var gen := GenTargetName(gnTargetName); var r := ProtoTargetType(gnDesc, gnTargetName);
      && (r.Some? <==> gen in gnDesc && gnDesc[gen].type_ == "action" && gnDesc[gen].script == ProtocWrapperScript)
      && (r.Some? ==> r.value == ProtoTarget(PluginFromArgs(gnDesc[gen].args), gnDesc[gen]))
  {
  }

  /** The four Android toolchains name four different architectures. */
  lemma GetArchSeparatesAndroid(t1: string, t2: string)
    requires t1 in AndroidToolchains && t2 in AndroidToolchains && t1 != t2
    ensures GetArch(t1) != GetArch(t2)
  {
  }

  /** A target built for several toolchains is filed under one key. */
  lemma TargetKeyIgnoresToolchain(name: string, toolchain: string, isTestTarget: bool)
    requires '(' !in name
    ensures TargetKey(name + "(" + toolchain, isTestTarget) == TargetKey(name, isTestTarget)
  {
    LabelSplitTail(name, "(" + toolchain);
    assert name + "(" + toolchain == name + ("(" + toolchain);
    LabelSplitTail(name, []);
    assert name + [] == name;
  }

  /** Parsing a desc entry whose target already has the entry's arch changes nothing and returns that target. */
  method ParseAgainIsCached(p: Parser, gnDesc: map<string, Desc>, gnTargetName: string, isTestTarget: bool)
    returns (target: Target, stage: Stage)
    requires p.Valid() && gnTargetName in gnDesc
    requires TargetKey(gnTargetName, isTestTarget) in p.allTargets
    requires GetArch(gnDesc[gnTargetName].toolchain) in p.allTargets[TargetKey(gnTargetName, isTestTarget)].arch
    modifies p`allTargets, p.allTargets.Values
    ensures stage == AlreadyProcessed && target == old(p.allTargets[TargetKey(gnTargetName, isTestTarget)])
    ensures p.allTargets == old(p.allTargets) && unchanged(old(p.allTargets.Values))
  {
    target, stage := p.ParseGnDesc(gnDesc, gnTargetName, isTestTarget);
  }

  /**
   Parsing the same desc entry twice has the effect of parsing it once: the second call
   finds the target in the memo table, returns it as already processed and changes nothing.
   */
  method ParseTwiceIsCached(p: Parser, gnDesc: map<string, Desc>, gnTargetName: string, isTestTarget: bool)
    returns (first: Target, second: Target, stage: Stage)
    requires p.Valid() && gnTargetName in gnDesc
    requires TargetKey(gnTargetName, isTestTarget) !in p.allTargets ==> gnDesc[gnTargetName].type_ in ValidTypes
    modifies p`allTargets, p.allTargets.Values
    ensures first == second && stage == AlreadyProcessed
    ensures var key := TargetKey(gnTargetName, isTestTarget);
      var archName := GetArch(gnDesc[gnTargetName].toolchain);
      var before := if key in old(p.allTargets) then old(p.allTargets[key].arch) else map[CommonArch := EmptyArch];
      && p.allTargets == old(p.allTargets)[key := first]
      && first.arch == (if archName in before then before else before[archName := EmptyArch])
  {
    var s;
    first, s := p.ParseGnDesc(gnDesc, gnTargetName, isTestTarget);
    second, stage := ParseAgainIsCached(p, gnDesc, gnTargetName, isTestTarget);
  }
}
