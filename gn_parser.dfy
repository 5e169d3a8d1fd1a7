/**
 GnParser of android/tools/gn2bp/gn_utils.py: the parts that read a target's
 GN desc entry without walking its dependencies. These are the toolchain-to-arch
 table, the response-file formatting of actions, the detection of protobuf
 targets and their protoc plugin, and the memo table that parse_gn_desc
 consults before it walks a target.
 */
module GnParser {
  import opened Wrappers
  import opened PyStrings
  import opened BaseStrings
  import opened GnUtils
  import opened GnTarget

  /**
   The fields of one entry of the GN desc that the modelled code reads. A field
   missing from the entry is given the default the code passes to `get`.
   */
  datatype Desc = Desc(
    type_: string,
    toolchain: string,
    script: string,
    args: seq<string>,
    metadataKeys: set<string>,
    responseFileContents: seq<string>)

  const TestingSuffix: string := "__testing"
  const ProtocWrapperScript: string := "//tools/protoc_wrapper/protoc_wrapper.py"
  const DescriptorSetOutFlag: string := "--descriptor_set_out"
  const ProtoLibrarySourcesKey: string := "proto_library_sources"
  const PluginFlag: string := "--plugin="
  const DefaultPlugin: string := "proto"

  const AndroidToolchains: set<string> := {
    "//build/toolchain/android:android_clang_x86",
    "//build/toolchain/android:android_clang_x64",
    "//build/toolchain/android:android_clang_arm",
    "//build/toolchain/android:android_clang_arm64"}

  /**
   _get_arch: the four Android clang toolchains name the Android architectures;
   every other toolchain is the host. No toolchain is the common pseudo-architecture.
   */
  function GetArch(toolchain: string): (r: string)
    ensures r != CommonArch
    ensures r == "host" <==> toolchain !in AndroidToolchains
    ensures toolchain in AndroidToolchains ==> r in {"android_x86", "android_x86_64", "android_arm", "android_arm64"}
    ensures toolchain == "//build/toolchain/android:android_clang_x86" ==> r == "android_x86"
    ensures toolchain == "//build/toolchain/android:android_clang_x64" ==> r == "android_x86_64"
    ensures toolchain == "//build/toolchain/android:android_clang_arm" ==> r == "android_arm"
    ensures toolchain == "//build/toolchain/android:android_clang_arm64" ==> r == "android_arm64"
  {
    if toolchain == "//build/toolchain/android:android_clang_x86" then "android_x86"
    else if toolchain == "//build/toolchain/android:android_clang_x64" then "android_x86_64"
    else if toolchain == "//build/toolchain/android:android_clang_arm" then "android_arm"
    else if toolchain == "//build/toolchain/android:android_clang_arm64" then "android_arm64"
    else "host"
  }

  /**
   One response-file flag: without '=' it is kept, with one '=' its value is wrapped in
   escaped quotes, and with more `key, val = flag.split('=')` raises ValueError (None).
   */
  function FormatFlag(flag: string): (r: Option<string>)
    ensures '=' !in flag ==> r == Some(flag)
    ensures r.None? <==> CountChar(flag, '=') >= 2
  {
    var n := CountChar(flag, '=');
    if n == 0 then Some(flag)
    else if n == 1 then
      var key := BeforeFirst(flag, '=');
      Some(key + "=\\\"" + flag[|key| + 1..] + "\\\"")
    else None
  }

  /** Every flag formatted, in order. */
  function FormattedFlags(flags: seq<string>): (r: seq<Option<string>>)
    ensures |r| == |flags| && forall i :: 0 <= i < |flags| ==> r[i] == FormatFlag(flags[i])
  {
    seq(|flags|, i requires 0 <= i < |flags| => FormatFlag(flags[i]))
  }

  /**
   _get_response_file_contents on the flag list: the formatted flags joined by single
   spaces, or None when a flag makes the split raise.
   */
  function ResponseFileText(flags: seq<string>): (r: Option<string>)
    ensures r.Some? <==> forall i :: 0 <= i < |flags| ==> CountChar(flags[i], '=') <= 1
    ensures r.Some? ==> r.value == Join(AllPresent(FormattedFlags(flags)).value, " ")
  {
    match AllPresent(FormattedFlags(flags))
    case Some(formatted) => Some(Join(formatted, " "))
    case None => None
  }

  /**
   The name of the `_gen` action of a proto target: "_gen" inserted before the
   parenthesised toolchain, if there is one.
   */
  function GenTargetName(gnTargetName: string): (r: string)
    ensures LabelWithoutToolchain(r) == LabelWithoutToolchain(gnTargetName) + "_gen"
  {
    var name := LabelWithoutToolchain(gnTargetName);
    var toolchain := gnTargetName[|name|..];
    if toolchain == [] then
      assert name + "_gen" == name + "_gen" + [];
      LabelSplitTail(name + "_gen", []);
      name + "_gen"
    else
      assert toolchain == "(" + toolchain[1..];
      LabelSplitTail(name + "_gen", toolchain);
      name + "_gen" + toolchain
  }

  /** A label is cut at its first '(' and nowhere earlier. */
  lemma {:induction false} LabelSplitTail(name: string, toolchain: string)
    requires '(' !in name && (toolchain == [] || toolchain[0] == '(')
    ensures LabelWithoutToolchain(name + toolchain) == name
    decreases |name|
  {
    if name != [] {
      assert (name + toolchain)[1..] == name[1..] + toolchain;
      LabelSplitTail(name[1..], toolchain);
      assert name == [name[0]] + name[1..];
    } else {
      assert name + toolchain == toolchain;
    }
  }

  /**
   The plugin named by one `--plugin=` argument: the text after the last '=', then after
   the last '/', with "_plugin" removed. It has neither '=' nor '/'.
   */
  function PluginName(arg: string): (r: string)
    ensures '=' !in r && '/' !in r
  {
    Replace(AfterLast(AfterLast(arg, '='), '/'), "_plugin", "")
  }

  /**
   The plugin get_proto_target_type settles on: the last `--plugin=` argument decides,
   and without one the plugin is "proto".
   */
  function PluginFromArgs(args: seq<string>): (r: string)
    ensures r == DefaultPlugin || exists i :: 0 <= i < |args| && StartsWith(args[i], PluginFlag) && r == PluginName(args[i])
  {
    if args == [] then DefaultPlugin
    else if StartsWith(args[|args| - 1], PluginFlag) then PluginName(args[|args| - 1])
    else PluginFromArgs(args[..|args| - 1])
  }

  /** What get_proto_target_type returns when it recognises a proto target: the plugin and its desc. */
  datatype ProtoTarget = ProtoTarget(plugin: string, protoDesc: Desc)

  /**
   get_proto_target_type: a target with `--descriptor_set_out` among its args is a
   descriptor target; one with `proto_library_sources` metadata is a source set;
   otherwise it is a proto target exactly when its `_gen` action runs protoc_wrapper.py,
   and then the plugin comes from that action's args. None stands for (None, None).
   */
  function ProtoTargetType(gnDesc: map<string, Desc>, gnTargetName: string): (r: Option<ProtoTarget>)
    requires gnTargetName in gnDesc
    ensures DescriptorSetOutFlag in gnDesc[gnTargetName].args ==>
      r == Some(ProtoTarget("descriptor", gnDesc[gnTargetName]))
    ensures DescriptorSetOutFlag !in gnDesc[gnTargetName].args && ProtoLibrarySourcesKey in gnDesc[gnTargetName].metadataKeys ==>
      r == Some(ProtoTarget("source_set", gnDesc[gnTargetName]))
    ensures r.Some? && r.value.protoDesc != gnDesc[gnTargetName] ==>
      var gen := GenTargetName(gnTargetName);
      gen in gnDesc && r.value.protoDesc == gnDesc[gen] &&
      gnDesc[gen].type_ == "action" && gnDesc[gen].script == ProtocWrapperScript
  {
    var desc := gnDesc[gnTargetName];
    if DescriptorSetOutFlag in desc.args then Some(ProtoTarget("descriptor", desc))
    else if ProtoLibrarySourcesKey in desc.metadataKeys then Some(ProtoTarget("source_set", desc))
    else
      var gen := GenTargetName(gnTargetName);
      if gen !in gnDesc || gnDesc[gen].type_ != "action" then None
      else if gnDesc[gen].script != ProtocWrapperScript then None
      else Some(ProtoTarget(PluginFromArgs(gnDesc[gen].args), gnDesc[gen]))
  }

  /** The key parse_gn_desc files a target under: its label without toolchain, marked when it is a test target. */
  function TargetKey(gnTargetName: string, isTestTarget: bool): (r: string)
    ensures LabelWithoutToolchain(gnTargetName) <= r
    ensures isTestTarget ==> r == LabelWithoutToolchain(gnTargetName) + TestingSuffix
    ensures !isTestTarget ==> r == LabelWithoutToolchain(gnTargetName) && '(' !in r
  {
    LabelWithoutToolchain(gnTargetName) + (if isTestTarget then TestingSuffix else "")
  }

  /** How far parse_gn_desc gets before the dependency walk, which is not modelled. */
  datatype Stage =
    | AlreadyProcessed  // the target was already parsed for this arch: returned as it is
    | Builtin           // a builtin dependency: given its arch and returned
    | Walk              // the rest of parse_gn_desc would now read the desc and recurse

  /** GnParser: the builtin dependencies and every target parsed so far, by key. */
  class Parser {
    const builtinDeps: set<string>
    var allTargets: map<string, Target>

    /** Each target is filed under its own name and has its common arch. */
    ghost predicate Valid()
      reads this, allTargets.Values
    {
      forall key :: key in allTargets ==> allTargets[key].name == key && allTargets[key].Valid()
    }

    constructor (builtinDeps: set<string>)
      ensures Valid() && this.builtinDeps == builtinDeps && allTargets == map[]
    {
      this.builtinDeps := builtinDeps;
      allTargets := map[];
    }

    /** _get_response_file_contents: format each flag in a loop, then join them. */
    method GetResponseFileContents(actionDesc: Desc) returns (r: Option<string>)
      ensures r == ResponseFileText(actionDesc.responseFileContents)
    {
      var flags := actionDesc.responseFileContents;
      var formatted: seq<string> := [];
      var i := 0;
      while i < |flags|
        invariant 0 <= i <= |flags|
        invariant |formatted| == i && forall j :: 0 <= j < i ==> FormatFlag(flags[j]) == Some(formatted[j])
      {
        var flag := FormatFlag(flags[i]);
        if flag.None? {
          return None;
        }
        formatted := formatted + [flag.value];
        i := i + 1;
      }
      ghost var expected := AllPresent(FormattedFlags(flags));
      assert forall j :: 0 <= j < |flags| ==> formatted[j] == expected.value[j];
      assert formatted == expected.value;
      return Some(Join(formatted, " "));
    }

    /** get_proto_target_type, with the plugin found by a loop over the `_gen` action's args. */
    method GetProtoTargetType(gnDesc: map<string, Desc>, gnTargetName: string) returns (r: Option<ProtoTarget>)
      requires gnTargetName in gnDesc
      ensures r == ProtoTargetType(gnDesc, gnTargetName)
    {
      var desc := gnDesc[gnTargetName];
      if DescriptorSetOutFlag in desc.args {
        return Some(ProtoTarget("descriptor", desc));
      }
      if ProtoLibrarySourcesKey in desc.metadataKeys {
        return Some(ProtoTarget("source_set", desc));
      }
      var gen := GenTargetName(gnTargetName);
      if gen !in gnDesc || gnDesc[gen].type_ != "action" {
        return None;
      }
      var genDesc := gnDesc[gen];
      if genDesc.script != ProtocWrapperScript {
        return None;
      }
      var plugin := DefaultPlugin;
      var args := genDesc.args;
      var i := 0;
      while i < |args|
        invariant 0 <= i <= |args|
        invariant plugin == PluginFromArgs(args[..i])
      {
        assert args[..i + 1][..i] == args[..i];
        if StartsWith(args[i], PluginFlag) {
          plugin := PluginName(args[i]);
        }
        i := i + 1;
      }
      assert args[..i] == args;
      return Some(ProtoTarget(plugin, genDesc));
    }

    /**
     The start of parse_gn_desc: find or create the target under its key, then give it the
     arch of the desc's toolchain. A target that already has that arch was parsed before
     and is returned unchanged; a builtin dependency stops right after getting its arch.
     */
    method ParseGnDesc(gnDesc: map<string, Desc>, gnTargetName: string, isTestTarget: bool)
      returns (target: Target, stage: Stage)
      requires Valid() && gnTargetName in gnDesc
      requires TargetKey(gnTargetName, isTestTarget) !in allTargets ==> gnDesc[gnTargetName].type_ in ValidTypes
      modifies this`allTargets, allTargets.Values
      ensures Valid()
      ensures var key := TargetKey(gnTargetName, isTestTarget);
        && allTargets == old(allTargets)[key := target]
        && target.name == key
        && (key in old(allTargets) ==> target == old(allTargets[key]))
        && (key !in old(allTargets) ==> fresh(target) && target.type_ == gnDesc[gnTargetName].type_)
      ensures var key := TargetKey(gnTargetName, isTestTarget);
        key in old(allTargets) ==>
          && target.type_ == old(allTargets[key].type_) && target.isFinalized == old(allTargets[key].isFinalized)
          && target.libs == old(allTargets[key].libs) && target.protoPaths == old(allTargets[key].protoPaths)
          && target.protoDeps == old(allTargets[key].protoDeps)
          && target.transitiveProtoDeps == old(allTargets[key].transitiveProtoDeps)
      ensures TargetKey(gnTargetName, isTestTarget) !in old(allTargets) ==>
        && !target.isFinalized
        && target.libs == {} && target.protoDeps == {} && target.transitiveProtoDeps == {} && target.protoPaths == {}
      ensures stage == AlreadyProcessed ==> TargetKey(gnTargetName, isTestTarget) in old(allTargets)
      ensures var key := TargetKey(gnTargetName, isTestTarget);
        key in old(allTargets) && stage == AlreadyProcessed ==> unchanged(old(allTargets[key]))
      ensures var key := TargetKey(gnTargetName, isTestTarget);
        var archName := GetArch(gnDesc[gnTargetName].toolchain);
        var before := if key in old(allTargets) then old(allTargets[key].arch) else map[CommonArch := EmptyArch];
        && (stage == AlreadyProcessed <==> archName in before)
        && (stage == AlreadyProcessed ==> target.arch == before)
        && (stage != AlreadyProcessed ==> target.arch == before[archName := EmptyArch])
        && (stage == Builtin <==> archName !in before && key in builtinDeps)
      ensures forall key :: key in old(allTargets) && key != TargetKey(gnTargetName, isTestTarget) ==>
        unchanged(old(allTargets[key]))
    {
      var key := TargetKey(gnTargetName, isTestTarget);
      var desc := gnDesc[gnTargetName];
      var archName := GetArch(desc.toolchain);
      if key in allTargets {
        target := allTargets[key];
      } else {
        target := new Target(key, desc.type_);
        allTargets := allTargets[key := target];
      }
      if archName in target.arch {
        return target, AlreadyProcessed;
      }
      target.arch := target.arch[archName := EmptyArch];
      if target.name in builtinDeps {
        return target, Builtin;
      }
      return target, Walk;
    }
  }
}
