/**
 GnParser.Target of android/tools/gn2bp/gn_utils.py: one GN target with its
 per-architecture properties, how a group dependency's flags are merged into
 it, and how properties shared by every architecture are moved into the
 pseudo-architecture "common".
 */
module GnTarget {
  import opened PyStrings

  /** GnParser.Target.Arch: the properties of a target for one architecture. */
  datatype Arch = Arch(
    sources: set<string>,
    cflags: set<string>,
    defines: set<string>,
    includeDirs: set<string>,
    deps: set<string>,
    transitiveStaticLibsDeps: set<string>,
    sourceSetDeps: set<string>,
    ldflags: set<string>,
    inputs: set<string>,
    outputs: set<string>,
    args: seq<string>,
    responseFileContents: string)

  /** A freshly constructed Arch: every set empty, no arguments, no response file. */
  const EmptyArch: Arch := Arch({}, {}, {}, {}, {}, {}, {}, {}, {}, {}, [], "")

  /** The pseudo-architecture that holds the properties shared by all architectures. */
  const CommonArch: string := "common"

  const ValidTypes: set<string> := {"static_library", "shared_library", "executable", "group",
    "action", "source_set", "proto_library", "copy", "action_foreach"}

  const LinkerUnitTypes: set<string> := {"executable", "shared_library", "static_library", "source_set"}

  /** The per-architecture attributes that finalize moves, and the ones update merges. */
  datatype Attribute =
    | Sources | Cflags | Defines | IncludeDirs | Deps | SourceSetDeps
    | Inputs | Outputs | Args | ResponseFileContents | Ldflags

  /** Whether the attribute holds a set; args is a list and response_file_contents a string. */
  predicate IsSetAttribute(k: Attribute) {
    !(k.Args? || k.ResponseFileContents?)
  }

  /** The attributes finalize visits, in the order it visits them. */
  const FinalizedAttributes: seq<Attribute> :=
    [Sources, Cflags, Defines, IncludeDirs, Deps, SourceSetDeps, Inputs, Outputs, Args, ResponseFileContents, Ldflags]

  /** The attributes update merges into the common arch, and into the named arch. */
  const MergedIntoCommon: set<Attribute> := {Cflags, Defines, Deps, IncludeDirs, Ldflags, SourceSetDeps}
  const MergedIntoArch: set<Attribute> := {Cflags, Defines, IncludeDirs, SourceSetDeps, Ldflags}

  function GetSet(a: Arch, k: Attribute): set<string>
    requires IsSetAttribute(k)
  {
    match k
    case Sources => a.sources
    case Cflags => a.cflags
    case Defines => a.defines
    case IncludeDirs => a.includeDirs
    case Deps => a.deps
    case SourceSetDeps => a.sourceSetDeps
    case Inputs => a.inputs
    case Outputs => a.outputs
    case Ldflags => a.ldflags
  }

  /** Replacing one set attribute: that attribute reads back, every other attribute is kept. */
  function WithSet(a: Arch, k: Attribute, v: set<string>): (r: Arch)
    requires IsSetAttribute(k)
    ensures GetSet(r, k) == v
    ensures forall k' :: IsSetAttribute(k') && k' != k ==> GetSet(r, k') == GetSet(a, k')
    ensures r.transitiveStaticLibsDeps == a.transitiveStaticLibsDeps
    ensures r.args == a.args && r.responseFileContents == a.responseFileContents
  {
    match k
    case Sources => a.(sources := v)
    case Cflags => a.(cflags := v)
    case Defines => a.(defines := v)
    case IncludeDirs => a.(includeDirs := v)
    case Deps => a.(deps := v)
    case SourceSetDeps => a.(sourceSetDeps := v)
    case Inputs => a.(inputs := v)
    case Outputs => a.(outputs := v)
    case Ldflags => a.(ldflags := v)
  }

  /** The value of a list or string attribute; Python compares and tests both by their contents. */
  datatype PlainValue = ListValue(items: seq<string>) | TextValue(text: string)

  /** Python truthiness: a list or string is true when it is not empty. */
  predicate Truthy(v: PlainValue) {
    match v
    case ListValue(items) => items != []
    case TextValue(text) => text != []
  }

  function GetPlain(a: Arch, k: Attribute): (v: PlainValue)
    requires !IsSetAttribute(k)
  {
    if k.Args? then ListValue(a.args) else TextValue(a.responseFileContents)
  }

  /** Whether a value has the shape the attribute holds. */
  predicate Fits(k: Attribute, v: PlainValue) {
    k.Args? <==> v.ListValue?
  }

  /** Replacing one list or string attribute: it reads back, the sets and the other one are kept. */
  function WithPlain(a: Arch, k: Attribute, v: PlainValue): (r: Arch)
    requires !IsSetAttribute(k) && Fits(k, v)
    ensures GetPlain(r, k) == v
    ensures forall k' :: IsSetAttribute(k') ==> GetSet(r, k') == GetSet(a, k')
    ensures forall k' :: !IsSetAttribute(k') && k' != k ==> GetPlain(r, k') == GetPlain(a, k')
    ensures r.transitiveStaticLibsDeps == a.transitiveStaticLibsDeps
  {
    match v
    case ListValue(items) => a.(args := items)
    case TextValue(text) => a.(responseFileContents := text)
  }

  /**
   The set attributes named in `keys` of `a`, each widened by the same attribute
   of `o`; everything else is `a`'s.
   */
  function MergeSets(a: Arch, o: Arch, keys: set<Attribute>): (r: Arch)
    ensures r.transitiveStaticLibsDeps == a.transitiveStaticLibsDeps
    ensures r.args == a.args && r.responseFileContents == a.responseFileContents
  {
    a.(sources := a.sources + (if Sources in keys then o.sources else {}),
       cflags := a.cflags + (if Cflags in keys then o.cflags else {}),
       defines := a.defines + (if Defines in keys then o.defines else {}),
       includeDirs := a.includeDirs + (if IncludeDirs in keys then o.includeDirs else {}),
       deps := a.deps + (if Deps in keys then o.deps else {}),
       sourceSetDeps := a.sourceSetDeps + (if SourceSetDeps in keys then o.sourceSetDeps else {}),
       inputs := a.inputs + (if Inputs in keys then o.inputs else {}),
       outputs := a.outputs + (if Outputs in keys then o.outputs else {}),
       ldflags := a.ldflags + (if Ldflags in keys then o.ldflags else {}))
  }

  /** Each set attribute of a merge is `a`'s, widened by `o`'s exactly when the attribute is one of `keys`. */
  lemma MergeSetsGet(a: Arch, o: Arch, keys: set<Attribute>, k: Attribute)
    requires IsSetAttribute(k)
    ensures GetSet(MergeSets(a, o, keys), k) == GetSet(a, k) + (if k in keys then GetSet(o, k) else {})
  {
    match k
    case Sources =>
    case Cflags =>
    case Defines =>
    case IncludeDirs =>
    case Deps =>
    case SourceSetDeps =>
    case Inputs =>
    case Outputs =>
    case Ldflags =>
  }

  /** Merging a dependency's arch flags into common again, after its common flags, changes nothing. */
  lemma MergeSetsAbsorbs(a: Arch, o: Arch)
    ensures MergeSets(MergeSets(a, o, MergedIntoCommon), o, MergedIntoArch) == MergeSets(a, o, MergedIntoCommon)
  {
    var m := MergeSets(a, o, MergedIntoCommon);
    assert Cflags in MergedIntoCommon && Defines in MergedIntoCommon && IncludeDirs in MergedIntoCommon;
    assert SourceSetDeps in MergedIntoCommon && Ldflags in MergedIntoCommon;
    assert Sources !in MergedIntoArch && Deps !in MergedIntoArch && Inputs !in MergedIntoArch && Outputs !in MergedIntoArch;
  }

  /** get_archs: the architectures of a target except the common pseudo-architecture. */
  function Archs(m: map<string, Arch>): (r: set<string>)
    ensures forall a :: a in r <==> a in m && a != CommonArch
  {
    m.Keys - {CommonArch}
  }

  /** set.intersection over every architecture's set; Python raises TypeError when there is none. */
  function ArchIntersection(m: map<string, Arch>, k: Attribute): (r: set<string>)
    requires IsSetAttribute(k) && Archs(m) != {}
    ensures forall x :: x in r <==> forall a :: a in Archs(m) ==> x in GetSet(m[a], k)
  {
    var r := set a, x | a in Archs(m) && x in GetSet(m[a], k) && (forall b | b in Archs(m) :: x in GetSet(m[b], k)) :: x;
    assert forall x :: (forall a :: a in Archs(m) ==> x in GetSet(m[a], k)) ==> x in r by {
      var a0 :| a0 in Archs(m);
      forall x | forall a :: a in Archs(m) ==> x in GetSet(m[a], k)
        ensures x in r
      {
        assert x in GetSet(m[a0], k);
      }
    }
    r
  }

  /** What the common set of `k` becomes: it gains everything every architecture has. */
  function NewCommon(m: map<string, Arch>, k: Attribute): set<string>
    requires CommonArch in m && IsSetAttribute(k) && Archs(m) != {}
  {
    GetSet(m[CommonArch], k) + ArchIntersection(m, k)
  }

  /**
   _finalize_set_attribute on the arch table: the common set gains the intersection of
   the architecture sets, and each architecture set loses what is now common.
   */
  function FinalizeSet(m: map<string, Arch>, k: Attribute): (r: map<string, Arch>)
    requires CommonArch in m && IsSetAttribute(k) && Archs(m) != {}
    ensures r.Keys == m.Keys
    ensures r[CommonArch] == WithSet(m[CommonArch], k, NewCommon(m, k))
    ensures forall a :: a in Archs(m) ==> r[a] == WithSet(m[a], k, GetSet(m[a], k) - NewCommon(m, k))
  {
    var common := NewCommon(m, k);
    map a | a in m :: if a == CommonArch then WithSet(m[a], k, common) else WithSet(m[a], k, GetSet(m[a], k) - common)
  }

  /** A table that agrees with FinalizeSet on every architecture is FinalizeSet. */
  lemma FinalizeSetPointwise(m: map<string, Arch>, k: Attribute, r: map<string, Arch>)
    requires CommonArch in m && IsSetAttribute(k) && Archs(m) != {}
    requires r.Keys == m.Keys && r[CommonArch] == WithSet(m[CommonArch], k, NewCommon(m, k))
    requires forall a :: a in Archs(m) ==> r[a] == WithSet(m[a], k, GetSet(m[a], k) - NewCommon(m, k))
    ensures r == FinalizeSet(m, k)
  {
    var expected := FinalizeSet(m, k);
    assert forall a :: a in r ==> r[a] == expected[a];
  }

  /** Every architecture holds the same true value `v` for `k`. */
  predicate UnanimousOn(m: map<string, Arch>, k: Attribute, v: PlainValue)
    requires !IsSetAttribute(k)
  {
    Truthy(v) && forall a :: a in Archs(m) ==> GetPlain(m[a], k) == v
  }

  /**
   _finalize_non_set_attribute on the arch table: when every architecture has the same
   non-empty value, common takes that value; otherwise nothing changes. Python reads the
   value of the first architecture, but when all agree any architecture gives the same.
   */
  ghost function FinalizePlain(m: map<string, Arch>, k: Attribute): (r: map<string, Arch>)
    requires CommonArch in m && !IsSetAttribute(k) && Archs(m) != {}
    ensures forall a :: a in Archs(m) && UnanimousOn(m, k, GetPlain(m[a], k)) ==>
      r == m[CommonArch := WithPlain(m[CommonArch], k, GetPlain(m[a], k))]
    ensures (forall a :: a in Archs(m) ==> !UnanimousOn(m, k, GetPlain(m[a], k))) ==> r == m
  {
    if exists a :: a in Archs(m) && UnanimousOn(m, k, GetPlain(m[a], k)) then
      var a :| a in Archs(m) && UnanimousOn(m, k, GetPlain(m[a], k));
      m[CommonArch := WithPlain(m[CommonArch], k, GetPlain(m[a], k))]
    else m
  }

  /** _finalize_attribute: sets are split between common and the architectures, lists and strings hoisted whole. */
  ghost function FinalizeAttributeOf(m: map<string, Arch>, k: Attribute): (r: map<string, Arch>)
    requires CommonArch in m && Archs(m) != {}
    ensures r.Keys == m.Keys
  {
    if IsSetAttribute(k) then FinalizeSet(m, k) else FinalizePlain(m, k)
  }

  /** finalize's loop: the attributes of `ks` finalized one after the other, from the first. */
  ghost function FinalizeAll(m: map<string, Arch>, ks: seq<Attribute>): (r: map<string, Arch>)
    requires CommonArch in m && Archs(m) != {}
    ensures r.Keys == m.Keys
  {
    if ks == [] then m else FinalizeAttributeOf(FinalizeAll(m, ks[..|ks| - 1]), ks[|ks| - 1])
  }

  /** Finalizing one more attribute extends the loop by one step. */
  lemma FinalizeAllStep(m: map<string, Arch>, ks: seq<Attribute>, i: nat)
    requires CommonArch in m && Archs(m) != {} && i < |ks|
    ensures FinalizeAll(m, ks[..i + 1]) == FinalizeAttributeOf(FinalizeAll(m, ks[..i]), ks[i])
  {
    assert ks[..i + 1][..i] == ks[..i];
  }

  /** GnParser.Target. Only the fields the modelled operations read or write are kept. */
  class Target {
    var name: string
    var type_: string
    var isFinalized: bool
    var arch: map<string, Arch>
    var libs: set<string>
    var protoDeps: set<string>
    var transitiveProtoDeps: set<string>
    var protoPaths: set<string>

    /** The common pseudo-architecture is always present. */
    predicate Valid()
      reads this
    {
      CommonArch in arch
    }

    /** Target(name, type): the type must be one of the GN target types. */
    constructor (name: string, type_: string)
      requires type_ in ValidTypes
      ensures Valid()
      ensures this.name == name && this.type_ == type_ && !isFinalized
      ensures arch == map[CommonArch := EmptyArch]
      ensures libs == {} && protoDeps == {} && transitiveProtoDeps == {} && protoPaths == {}
    {
      this.name := name;
      this.type_ := type_;
      isFinalized := false;
      arch := map[CommonArch := EmptyArch];
      libs := {};
      protoDeps := {};
      transitiveProtoDeps := {};
      protoPaths := {};
    }

    /** is_linker_unit_type: the target links to a binary or a library; every such type is a GN target type. */
    function IsLinkerUnitType(): (r: bool)
      reads this
      ensures r <==> type_ in LinkerUnitTypes
      ensures r ==> type_ in ValidTypes
    {
      type_ in LinkerUnitTypes
    }

    /** get_target_name: the part of the name after the first ':', or the whole name when there is none. */
    function GetTargetName(): (r: string)
      reads this
      ensures ':' !in name ==> r == name
      ensures ':' in name ==> name == BeforeFirst(name, ':') + ":" + r && ':' !in BeforeFirst(name, ':')
    {
      var dir := BeforeFirst(name, ':');
      if |dir| == |name| then name
      else
        assert name == dir + ":" + name[|dir| + 1..];
        name[|dir| + 1..]
    }

    /**
     update: merge a group dependency's flags into this target. The common arch gains the
     dependency's common flags and the proto and library sets grow by the dependency's; then
     the named arch gains the dependency's flags for that arch. When either target lacks the
     named arch, the second step raises KeyError: `ok` is false and only the first step has
     happened. `other` may be this target itself.
     */
    method Update(other: Target, archName: string) returns (ok: bool)
      requires Valid() && other.Valid()
      modifies this`arch, this`libs, this`protoDeps, this`transitiveProtoDeps, this`protoPaths
      ensures ok <==> archName in old(arch) && archName in old(other.arch)
      ensures Valid() && arch.Keys == old(arch.Keys)
      ensures arch[CommonArch] == MergeSets(old(arch[CommonArch]), old(other.arch[CommonArch]), MergedIntoCommon)
      ensures ok && archName != CommonArch ==>
        arch[archName] == MergeSets(old(arch[archName]), old(other.arch[archName]), MergedIntoArch)
      ensures forall a :: a in arch && a != CommonArch && (a != archName || !ok) ==> arch[a] == old(arch[a])
      ensures libs == old(libs + other.libs) && protoPaths == old(protoPaths + other.protoPaths)
      ensures protoDeps == old(protoDeps + other.protoDeps)
      ensures transitiveProtoDeps == old(transitiveProtoDeps + other.transitiveProtoDeps)
    {
      var otherCommon := other.arch[CommonArch];
      ok := archName in arch && archName in other.arch;
      var table := arch[CommonArch := MergeSets(arch[CommonArch], otherCommon, MergedIntoCommon)];
      if ok {
        if archName == CommonArch {
          // Merging the common flags a second time adds nothing.
          MergeSetsAbsorbs(arch[CommonArch], otherCommon);
        }
        table := table[archName := MergeSets(table[archName], other.arch[archName], MergedIntoArch)];
      }
      var otherLibs, otherProtoDeps := other.libs, other.protoDeps;
      var otherTransitive, otherPaths := other.transitiveProtoDeps, other.protoPaths;
      arch := table;
      libs := libs + otherLibs;
      protoDeps := protoDeps + otherProtoDeps;
      transitiveProtoDeps := transitiveProtoDeps + otherTransitive;
      protoPaths := protoPaths + otherPaths;
    }

    /** _finalize_set_attribute: hoist what every architecture shares, then remove it from each. */
    method FinalizeSetAttribute(k: Attribute)
      requires Valid() && IsSetAttribute(k) && Archs(arch) != {}
      modifies this`arch
      ensures arch == FinalizeSet(old(arch), k)
    {
      var before := arch;
      var common := NewCommon(before, k);
      var m := before[CommonArch := WithSet(before[CommonArch], k, common)];
      var todo := Archs(before);
      while todo != {}
        invariant todo <= Archs(before)
        invariant m.Keys == before.Keys
        invariant m[CommonArch] == WithSet(before[CommonArch], k, common)
        invariant forall a :: a in Archs(before) ==>
          m[a] == if a in todo then before[a] else WithSet(before[a], k, GetSet(before[a], k) - common)
        decreases |todo|
      {
        var a :| a in todo;
        m := m[a := WithSet(m[a], k, GetSet(m[a], k) - common)];
        todo := todo - {a};
      }
      FinalizeSetPointwise(before, k, m);
      arch := m;
    }

    /** _finalize_non_set_attribute: copy the first architecture's value when it is true and all agree. */
    method FinalizeNonSetAttribute(k: Attribute)
      requires Valid() && !IsSetAttribute(k) && Archs(arch) != {}
      modifies this`arch
      ensures arch == FinalizePlain(old(arch), k)
    {
      var first :| first in Archs(arch);
      var v := GetPlain(arch[first], k);
      if Truthy(v) && forall a | a in Archs(arch) :: GetPlain(arch[a], k) == v {
        arch := arch[CommonArch := WithPlain(arch[CommonArch], k, v)];
      }
    }

    /** _finalize_attribute: dispatch on whether the attribute holds a set. */
    method FinalizeAttribute(k: Attribute)
      requires Valid() && Archs(arch) != {}
      modifies this`arch
      ensures arch == FinalizeAttributeOf(old(arch), k)
    {
      if IsSetAttribute(k) {
        FinalizeSetAttribute(k);
      } else {
        FinalizeNonSetAttribute(k);
      }
    }

    /**
     finalize: runs once, guarded by isFinalized; a target with only the common arch is left
     as it is; otherwise every attribute is finalized in turn.
     */
    method Finalize()
      requires Valid()
      modifies this`isFinalized, this`arch
      ensures Valid() && isFinalized
      ensures old(isFinalized) ==> arch == old(arch)
      ensures !old(isFinalized) && |old(arch)| == 1 ==> arch == old(arch)
      ensures !old(isFinalized) && |old(arch)| != 1 ==>
        Archs(old(arch)) != {} && arch == FinalizeAll(old(arch), FinalizedAttributes)
    {
      if isFinalized {
        return;
      }
      isFinalized := true;
      if |arch| == 1 {
        return;
      }
      assert Archs(arch) != {} by {
        assert arch.Keys != {CommonArch};
      }
      ghost var start := arch;
      var ks := FinalizedAttributes;
      for i := 0 to |ks|
        invariant isFinalized && arch.Keys == start.Keys
        invariant arch == FinalizeAll(start, ks[..i])
      {
        assert Archs(arch) == Archs(start);
        FinalizeAllStep(start, ks, i);
        FinalizeAttribute(ks[i]);
      }
      assert ks[..|ks|] == ks;
    }
  }
}
