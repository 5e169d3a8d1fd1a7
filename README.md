# DNS-over-HTTPS resolver groups and GN-to-Android.bp target helpers, in Dafny

This project models two pieces of the Cronet tree and proves properties of the models.

**DNS-over-HTTPS configuration** (`net/dns/public/dns_over_https_config.cc`). A
`DnsOverHttpsConfig` is an ordered group of DoH servers (RFC 8484) that can be written in two
syntaxes:

- a JSON document `{"servers": [ ... ]}`;
- a list of URI templates separated by ASCII whitespace.

The model covers:

- the strict parser `FromString`, which rejects a group unless every template is valid and the group is non-empty;
- the lax parser `FromStringLax`, which keeps whatever is valid;
- the structured decoder and encoder (`FromValue`, `ToValue`);
- equality;
- `ToString`, which writes templates one per line when every server is simple, and pretty-printed JSON otherwise.

The per-server type (`DnsOverHttpsServerConfig`), `base::JSONReader` and `base::JSONWriter` are
not part of this model. They are passed in as a record of functions (`DnsOverHttps.Collaborators`).
The ghost predicate `DnsOverHttps.Contract` states, in one place, what every lemma marked "under the contract" assumes of them:

- a valid template is one whitespace-free token that does not start with `{`;
- a simple server is rebuilt from its template;
- every server is rebuilt from its structured value;
- the reader reads the trimmed output of the pretty-printer back to the same value;
- text that reads as a dictionary starts with `{` after optional whitespace.

The whitespace splitting, joining and trimming of `base/strings` are modelled in `BaseStrings`.

**gn2bp's GN helpers** (`android/tools/gn2bp/gn_utils.py`). gn2bp turns a GN JSON description
into Android.bp modules. The model covers:

- the label helpers (`_clean_string`, `label_to_path`, `label_without_toolchain`);
- `GnParser.Target`: a class whose `arch` table maps each architecture, plus the pseudo-architecture `"common"`, to its `Arch` properties;
- the Target operations that merge a dependency's flags into a target (`update`);
- the Target operations that move what every architecture shares into `"common"` (`_finalize_set_attribute`, `_finalize_non_set_attribute`, `_finalize_attribute`, `finalize`);
- `GnParser` itself, with the toolchain-to-architecture table (`_get_arch`), the response-file formatting (`_get_response_file_contents`) and the protobuf target detection (`get_proto_target_type`);
- the memo-table prefix of `parse_gn_desc`, which finds or creates the target, gives it its architecture, and returns early for a target already seen or a builtin.

Module layout:

- `Wrappers`: Option, with all-or-nothing and best-effort collection.
- `BaseStrings` and `BaseValues`: what the C++ code uses from `base`.
- `DnsOverHttps` and `DnsOverHttpsProperties`.
- `PyStrings`: the Python string methods used.
- `GnUtils` and `GnUtilsProperties`.
- `GnTarget` and `GnTargetProperties`.
- `GnParser` and `GnParserProperties`.

Loops that build a result step by step are `method`s with loop invariants, each proved equal to a specification function: `FromValue`, `FromTemplates`, `FromStringLax` and `ToValue` in the DNS-over-HTTPS core, and `FinalizeSetAttribute`, `Finalize`, `GetResponseFileContents` and `GetProtoTargetType` in gn_utils.py. Loops that only map or test a sequence are functions: `ParseTemplates` by recursion, `AllSimple` as a quantifier, `ServerTemplates` as a sequence comprehension. The two loops of `Target.update` are one `MergeSets` record update per arch. Python objects updated in place (`Target`, `GnParser`) are classes. An `Arch` is a datatype value held in the target's `arch` map: its fields are only reached through its owner, and every `Arch` is created fresh.

## Model

| member | source | states |
|---|---|---|
| BaseStrings.SplitOnWhitespace | net/dns/public/dns_over_https_config.cc:25-29 | every piece is a non-empty, whitespace-free token, and the pieces concatenated are the input with its whitespace removed |
| BaseStrings.SplitJoin | net/dns/public/dns_over_https_config.cc:25-29 | tokens joined by any non-empty whitespace separator split back into exactly those tokens |
| BaseStrings.SplitIgnoresPadding | net/dns/public/dns_over_https_config.cc:25-29 | leading, trailing and repeated whitespace do not change the split (TRIM_WHITESPACE, SPLIT_WANT_NONEMPTY) |
| BaseStrings.SplitBlank | net/dns/public/dns_over_https_config.cc:109-111 | text of whitespace only splits into no templates |
| BaseStrings.TrimTrailingWhitespace | net/dns/public/dns_over_https_config.cc:145-146 | the result is a prefix of the input, does not end in whitespace, and only whitespace was removed |
| BaseValues.FindList | net/dns/public/dns_over_https_config.cc:44-46 | a list is found exactly when the key is present and holds a list, and it is that list |
| DnsOverHttps.SplitGroup | net/dns/public/dns_over_https_config.cc:25-29 | the templates of a group are its whitespace-free tokens and together hold all its non-whitespace text |
| DnsOverHttps.ParseTemplates | net/dns/public/dns_over_https_config.cc:31-39 | one result per template, in order, each the server parser's result for that template |
| Wrappers.AllPresent | net/dns/public/dns_over_https_config.cc:88-93 | present exactly when every entry is present, and then the values one for one and in order |
| Wrappers.Present | net/dns/public/dns_over_https_config.cc:121-125 | keeps only present values, never more than the input has |
| Wrappers.PresentKeeps | net/dns/public/dns_over_https_config.cc:122-125 | every present entry survives the lax collection |
| Wrappers.PresentConcat | net/dns/public/dns_over_https_config.cc:122-125 | the lax collection preserves order: collecting a concatenation is concatenating the collections |
| Wrappers.PresentWhenAllPresent | net/dns/public/dns_over_https_config.cc:88-93 | when every entry is present, the lax and the strict collections agree |
| DnsOverHttps.GroupOfTemplates | net/dns/public/dns_over_https_config.cc:85-95 | a group exists exactly when every template parses, and then it has one server per template, in order |
| DnsOverHttps.FromTemplates | net/dns/public/dns_over_https_config.cc:85-95 | the loop returns nothing at the first invalid template, otherwise the group of all servers (equals GroupOfTemplates) |
| DnsOverHttps.DecodeDict | net/dns/public/dns_over_https_config.cc:43-59 | a group exists exactly when "servers" holds a list whose every element is a dictionary that the server parser accepts; then one server per element, in order |
| DnsOverHttps.FromValue | net/dns/public/dns_over_https_config.cc:43-59 | the loop gives up at the first bad element, otherwise collects all servers (equals DecodeDict) |
| DnsOverHttps.FromJson | net/dns/public/dns_over_https_config.cc:61-66 | nothing when the text does not read or is not a dictionary; otherwise the dictionary's decoding |
| DnsOverHttps.FromString | net/dns/public/dns_over_https_config.cc:104-113 | a successful strict parse never yields an empty group |
| DnsOverHttps.FromStringLax | net/dns/public/dns_over_https_config.cc:116-127 | any JSON group that decodes, even an empty one; otherwise the valid templates in order (the loop equals LaxParse) |
| DnsOverHttps.Equals | net/dns/public/dns_over_https_config.cc:129-131 | equal exactly when the server lists have the same length and agree position by position |
| DnsOverHttps.ServerTemplates | net/dns/public/dns_over_https_config.cc:136-139 | one template per server, in order |
| DnsOverHttps.ToValue | net/dns/public/dns_over_https_config.cc:150-159 | a dictionary with the single key "servers" holding a list, one value per server (equals EncodeGroup) |
| DnsOverHttpsProperties.TemplateTextIsNotJson | net/dns/public/dns_over_https_config.cc:61-66 | under the contract, text whose first token cannot open a JSON object gives no JSON group |
| DnsOverHttpsProperties.StrictTemplatesAllOrNothing | net/dns/public/dns_over_https_config.cc:104-113 | without a usable JSON group, the strict parse succeeds exactly when there is at least one template and all are valid, and then it matches the templates one for one |
| DnsOverHttpsProperties.StrictJsonDocumentNeverFallsBack | net/dns/public/dns_over_https_config.cc:104-113 | under the contract, text that reads as a JSON dictionary yields its servers when there are any, and otherwise nothing; it never falls back to the template syntax |
| DnsOverHttpsProperties.EmptyServersAsymmetry | net/dns/public/dns_over_https_config.cc:104-127 | under the contract, on `{"servers": []}` the lax parser returns the empty group while the strict parser returns nothing |
| DnsOverHttpsProperties.BlankInput | net/dns/public/dns_over_https_config.cc:109-111 | under the contract, blank text: the strict parser returns nothing, the lax parser returns the empty group |
| DnsOverHttpsProperties.PartialValidity | net/dns/public/dns_over_https_config.cc:87-95 | under the contract, one valid and one invalid template: the strict parser rejects the group, the lax parser keeps exactly the valid server |
| DnsOverHttpsProperties.StrictIgnoresPadding | net/dns/public/dns_over_https_config.cc:104-113 | under the contract, how templates are separated and padded with whitespace does not change the strict parse |
| DnsOverHttpsProperties.StrictParseIsOrderSensitive | net/dns/public/dns_over_https_config.cc:129-131 | under the contract, two different valid templates give unequal groups in the two orders |
| DnsOverHttpsProperties.LaxKeepsValidTokens | net/dns/public/dns_over_https_config.cc:120-126 | without JSON, a server is in the lax group exactly when some template parses to it; with all templates valid, the lax group is the strict template group |
| DnsOverHttpsProperties.LaxAgreesWithStrict | net/dns/public/dns_over_https_config.cc:104-127 | under the contract, whenever the strict parser succeeds, the lax parser returns the same group |
| DnsOverHttpsProperties.ToValueRoundTrip | net/dns/public/dns_over_https_config.cc:150-159 | under the contract, decoding the structured encoding gives the group back |
| DnsOverHttps.ToString | net/dns/public/dns_over_https_config.cc:133-148 | the empty group prints as ""; a non-empty group of simple servers prints as their templates joined by single newlines, with no trailing newline; a group with a non-simple server prints as a prefix of the pretty-printed encoding; its round trip and its lack of trailing whitespace are the lemmas ToStringRoundTrip and ToStringNoTrailingWhitespace |
| DnsOverHttpsProperties.ToStringRoundTrip | net/dns/public/dns_over_https_config.cc:133-148 | under the contract, every non-empty group printed by ToString parses back strictly to itself, in both branches |
| DnsOverHttpsProperties.TemplatesRoundTrip | net/dns/public/dns_over_https_config.cc:134-141 | under the contract, the newline-joined templates of simple servers parse back to the same group |
| DnsOverHttpsProperties.TemplatesTextIsNotJson | net/dns/public/dns_over_https_config.cc:134-141 | under the contract, the newline-joined templates are never read as a JSON group |
| DnsOverHttpsProperties.EmptyGroupDoesNotRoundTrip | net/dns/public/dns_over_https_config.cc:133-141 | under the contract, the empty group prints as "", which the strict parser rejects |
| DnsOverHttpsProperties.ToStringNoTrailingWhitespace | net/dns/public/dns_over_https_config.cc:133-148 | under the contract, the text form never ends in whitespace, in either branch |
| PyStrings.Replace | android/tools/gn2bp/gn_utils.py:51 | str.replace never introduces a character that is in neither the input nor the replacement |
| PyStrings.ReplaceRemovesChar | android/tools/gn2bp/gn_utils.py:51 | removing every occurrence of a character leaves none |
| PyStrings.Strip | android/tools/gn2bp/gn_utils.py:51 | str.strip: the result has no whitespace at either end, is empty exactly for all-whitespace input, and is the input minus a whitespace prefix and a whitespace suffix |
| PyStrings.BeforeFirst | android/tools/gn2bp/gn_utils.py:73 | `split(c)[0]`: a prefix without `c`, followed in the input by `c` unless it is all of it |
| PyStrings.AfterLast | android/tools/gn2bp/gn_utils.py:571 | `split(c)[-1]`: a suffix without `c`, preceded in the input by `c` unless it is all of it |
| GnUtils.CleanString | android/tools/gn2bp/gn_utils.py:50-51 | the result has no backslash, no double quote, and no whitespace at either end |
| GnUtilsProperties.CleanStringFixpoint | android/tools/gn2bp/gn_utils.py:50-51 | already-clean text (no backslash, quote or "../../", no outer whitespace) is left unchanged |
| GnUtilsProperties.CleanStringNotIdempotent | android/tools/gn2bp/gn_utils.py:50-51 | the replacement order makes cleaning non-idempotent: `.."/../` cleans to `../../`, which cleans again to "" |
| GnUtils.LabelToPath | android/tools/gn2bp/gn_utils.py:62-65 | a label `//x` with non-empty `x` gives `x`, and `//` gives `./`; labels not starting with `//` are refused (the assert) |
| GnUtilsProperties.LabelToPathInverse | android/tools/gn2bp/gn_utils.py:62-65 | prefixing a non-empty path with `//` and taking the path back is the identity |
| GnUtils.LabelWithoutToolchain | android/tools/gn2bp/gn_utils.py:67-73 | the longest prefix without `(`, cut exactly at the first `(` |
| GnUtilsProperties.LabelWithoutToolchainIdempotent | android/tools/gn2bp/gn_utils.py:67-73 | stripping the toolchain twice is stripping it once |
| GnUtilsProperties.LabelSplitsAtToolchain | android/tools/gn2bp/gn_utils.py:67-73 | `name(toolchain)` without toolchain is `name` |
| GnTarget.Target.constructor | android/tools/gn2bp/gn_utils.py:122-158 | a new target of a valid type is unfinalized, with just an empty common arch and empty propagated sets |
| GnTarget.Target.GetTargetName | android/tools/gn2bp/gn_utils.py:306-307 | the name itself when it has no `:`, otherwise what follows the first `:` |
| GnTarget.MergeSetsGet | android/tools/gn2bp/gn_utils.py:253-260 | each merged set attribute is the union of both targets' sets; the others are untouched |
| GnTarget.Target.Update | android/tools/gn2bp/gn_utils.py:253-260 | common arch gains the other's cflags, defines, deps, include dirs, ldflags and source-set deps; libs and proto sets are unioned; when both targets have the named arch it gains the same without deps, and otherwise the call reports the KeyError (`ok` false) after the first loop has merged; no other arch changes |
| GnTarget.Archs | android/tools/gn2bp/gn_utils.py:262-264 | exactly the arch-table keys other than "common" |
| GnTarget.ArchIntersection | android/tools/gn2bp/gn_utils.py:268-269 | an element is in it exactly when every architecture's set holds it |
| GnTarget.FinalizeSet | android/tools/gn2bp/gn_utils.py:266-273 | common gains the intersection of the architectures; each architecture loses the new common set; the keys stay the same |
| GnTarget.Target.FinalizeSetAttribute | android/tools/gn2bp/gn_utils.py:266-273 | the loop over architectures produces FinalizeSet of the previous table |
| GnTarget.FinalizePlain | android/tools/gn2bp/gn_utils.py:275-279 | common takes the value exactly when all architectures share one non-empty value; otherwise the table is unchanged |
| GnTarget.Target.FinalizeNonSetAttribute | android/tools/gn2bp/gn_utils.py:275-279 | the new table is FinalizePlain of the previous one |
| GnTarget.Target.FinalizeAttribute | android/tools/gn2bp/gn_utils.py:281-288 | sets are finalized by splitting, the list and the string by hoisting |
| GnTarget.Target.Finalize | android/tools/gn2bp/gn_utils.py:290-304 | a second call changes nothing; a target with only common is only marked finalized; otherwise the 11 attributes are finalized in source order |
| GnTargetProperties.FinalizeSetHoistsShared | android/tools/gn2bp/gn_utils.py:266-269 | after finalizing, common holds its old set and everything all architectures shared |
| GnTargetProperties.FinalizeSetSeparates | android/tools/gn2bp/gn_utils.py:271-273 | after finalizing, no architecture repeats anything common holds |
| GnTargetProperties.FinalizeSetKeepsEverything | android/tools/gn2bp/gn_utils.py:266-273 | finalizing moves elements between common and the architectures but loses and invents none |
| GnTargetProperties.FinalizeSetLeavesNothingShared | android/tools/gn2bp/gn_utils.py:266-273 | after finalizing, the architectures share nothing |
| GnTargetProperties.FinalizeSetFixes | android/tools/gn2bp/gn_utils.py:266-273 | a table already separated and with nothing shared is left as it is |
| GnTargetProperties.FinalizeSetIdempotent | android/tools/gn2bp/gn_utils.py:266-273 | finalizing a set attribute twice is finalizing it once |
| GnTargetProperties.FinalizeSetTouchesOnlyIt | android/tools/gn2bp/gn_utils.py:266-273 | every other attribute of every architecture is unchanged |
| GnTargetProperties.FinalizePlainTouchesOnlyCommon | android/tools/gn2bp/gn_utils.py:275-279 | the list or string finalization changes only that attribute of common |
| GnTargetProperties.FinalizePlainIdempotent | android/tools/gn2bp/gn_utils.py:275-279 | finalizing a list or string attribute twice is finalizing it once |
| GnTargetProperties.FinalizeAttributeKeepsSeparation | android/tools/gn2bp/gn_utils.py:281-288 | finalizing one attribute keeps any other set attribute separated |
| GnTargetProperties.FinalizeAllSeparates | android/tools/gn2bp/gn_utils.py:302-304 | after the finalize loop, every visited set attribute is separated between common and the architectures |
| GnParser.Parser.constructor | android/tools/gn2bp/gn_utils.py:310-312 | the builtin dependencies are kept and no target is known yet |
| GnParser.GetArch | android/tools/gn2bp/gn_utils.py:338-348 | x86, x64, arm and arm64 clang toolchains map to android_x86, android_x86_64, android_arm and android_arm64; every other toolchain maps to "host"; never "common" |
| GnParserProperties.GetArchSeparatesAndroid | android/tools/gn2bp/gn_utils.py:338-346 | different Android toolchains give different architectures |
| GnParser.FormatFlag | android/tools/gn2bp/gn_utils.py:323-328 | a flag without `=` is kept; one with two or more `=` fails (the ValueError of the tuple unpacking) |
| GnParserProperties.FormatFlagQuotesValue | android/tools/gn2bp/gn_utils.py:324-326 | `key=val` becomes `key=\"val\"` |
| GnParser.FormattedFlags | android/tools/gn2bp/gn_utils.py:322-328 | one formatted entry per flag, in order |
| GnParser.ResponseFileText | android/tools/gn2bp/gn_utils.py:317-330 | text exactly when no flag has two `=`, and then the formatted flags joined by spaces |
| GnParser.Parser.GetResponseFileContents | android/tools/gn2bp/gn_utils.py:317-330 | the loop returns ResponseFileText of the desc's response_file_contents |
| GnParserProperties.ResponseFileFailsOnTwoEquals | android/tools/gn2bp/gn_utils.py:325 | one flag with two `=` fails the whole response file |
| GnParserProperties.ResponseFileKeepsPlainFlags | android/tools/gn2bp/gn_utils.py:327-330 | flags without `=` are joined unchanged |
| GnParserProperties.ResponseFileTwoFlags | android/tools/gn2bp/gn_utils.py:318-320 | the commented shape: `[plain, key=val]` becomes `plain key=\"val\"` |
| GnParser.GenTargetName | android/tools/gn2bp/gn_utils.py:541-559 | the `_gen` target's label without toolchain is the label without toolchain plus `_gen` |
| GnParserProperties.GenTargetNameOf | android/tools/gn2bp/gn_utils.py:541-559 | `name(toolchain)` maps to `name_gen(toolchain)`, and `name` to `name_gen` |
| GnParser.PluginName | android/tools/gn2bp/gn_utils.py:571 | the plugin name contains neither `=` nor `/` |
| GnParserProperties.PluginNameOfPath | android/tools/gn2bp/gn_utils.py:567-571 | `--plugin=…=dir/name_plugin` names the plugin `name` |
| GnParserProperties.PluginNameOfFile | android/tools/gn2bp/gn_utils.py:569-571 | `--plugin=…=name_plugin` names the plugin `name` |
| GnParser.PluginFromArgs | android/tools/gn2bp/gn_utils.py:564-571 | the plugin is "proto" or the name from one of the `--plugin=` arguments |
| GnParserProperties.PluginFromArgsDefault | android/tools/gn2bp/gn_utils.py:564-566 | with no `--plugin=` argument the plugin is "proto" |
| GnParserProperties.PluginFromArgsLastWins | android/tools/gn2bp/gn_utils.py:566-571 | the last `--plugin=` argument decides |
| GnParser.ProtoTargetType | android/tools/gn2bp/gn_utils.py:531-572 | a descriptor flag gives ("descriptor", desc); otherwise `proto_library_sources` metadata gives ("source_set", desc); a proto desc other than the target's own is its `_gen` action, which runs protoc_wrapper.py |
| GnParser.Parser.GetProtoTargetType | android/tools/gn2bp/gn_utils.py:531-572 | the method, with its plugin loop, returns ProtoTargetType |
| GnParserProperties.ProtoTargetNeedsProtocAction | android/tools/gn2bp/gn_utils.py:557-572 | without descriptor flag or source-set metadata, a proto target exists exactly when the `_gen` action runs protoc_wrapper.py, and its plugin comes from that action's args |
| GnParser.TargetKey | android/tools/gn2bp/gn_utils.py:367-378 | the key is exactly the label without toolchain for other targets, and that label with `__testing` appended for test targets |
| GnParserProperties.TargetKeyIgnoresToolchain | android/tools/gn2bp/gn_utils.py:367-369 | the same target built for several toolchains is filed under one key |
| GnParser.Parser.ParseGnDesc | android/tools/gn2bp/gn_utils.py:361-392 | finds or creates the target under its key; returns it unchanged, as already processed, exactly when it already has the arch; otherwise adds an empty arch, and stops there for a builtin; an existing target keeps every field but its arch table; a new one is unfinalized with empty libs and proto sets; no other target changes |
| GnParserProperties.ParseAgainIsCached | android/tools/gn2bp/gn_utils.py:380-388 | parsing a desc entry whose target already has the arch returns that target as already processed and changes neither the table nor any target |
| GnParserProperties.ParseTwiceIsCached | android/tools/gn2bp/gn_utils.py:380-388 | parsing the same desc entry twice returns the same target, the second time as already processed; the table after both calls is the table after the first, which only added the arch when it was missing |

## Left out

- The per-server type `DnsOverHttpsServerConfig` and base's JSON reader and writer: their code is not part of this model. They are parameters, constrained only by `DnsOverHttps.Contract` in the lemmas that need it.
- `FromTemplatesForTesting` (dns_over_https_config.cc:98-101) only forwards to `FromTemplates`. The copy and move constructors and assignments are value semantics, which Dafny datatypes have.
- The `CHECK` around `JSONWriter::WriteWithOptions` is treated as never failing, so `ToString` is total.
- gn_utils.py: `repo_root`, `_extract_includes_from_aidl_args` and `_is_java_source` (file system and regular expressions) are not part of this model.
- GnParser.Target: `host_supported`, `device_supported`, `__lt__`, `__repr__` and the forwarding properties are left out. So are the fields that the modelled operations neither read nor write (`testonly`, `toolchain`, `proto_plugin`, `proto_exports`, `proto_in_dir`, `public_headers`, `script`, `rtti`, `output_name`).
- `GnParser.get_target` and the dependency walk of `parse_gn_desc` after the builtin early return are left out. That walk covers proto paths, java and aidl handling, dependency recursion and source-set propagation. `ParseGnDesc` reports it as `Stage.Walk`.
- `java_group_name` and `_is_java_group` are left out: in the modelled prefix they only set a local variable that is used by the dependency walk.
- `get_proto_paths`, `get_proto_exports` and `get_proto_in_dir` are left out. They are used only by the dependency walk.
- A missing key in the GN desc (a Python KeyError) is not modelled. `gnDesc[gnTargetName]` is a precondition. A desc entry carries the fields the code reads, and a field read with `.get(...)` has the code's default.
- GnTarget.Target.constructor: the `assert type in VALID_TYPES` is a precondition, not an AssertionError path.
- GnUtils.LabelToPath: the `assert label.startswith('//')` is a precondition.
- GnTarget.FinalizePlain: Python reads the first architecture in dict insertion order. The model reads any architecture. The two agree, since the value is only used when every architecture holds it. Dict ordering is not modelled.
- GnParser.FormatFlag: a flag with two or more `=` makes the Python tuple unpacking raise ValueError. The model returns None, and the whole response file is then None.
- GnTarget.Target.IsLinkerUnitType: a lookup in the `LINKER_UNIT_TYPES` constant (gn_utils.py:235-236). Its contract only names that set, so it is not listed as a modelled property.
- GnParser.PluginFromArgs: its own contract only says the result is the default or comes from some plugin argument. The stronger fact that the last plugin argument wins is the lemma `GnParserProperties.PluginFromArgsLastWins`.
- GnParserProperties.PluginNameOfPath and GnParserProperties.PluginNameOfFile state the two argument shapes commented in `get_proto_target_type` in general form. The literal protozero instances are not stated separately.
- Logging is not modelled: the modelled code writes no log entries.
- Python strings are sequences of code points. `str.strip` uses the full `str.isspace` set. No Unicode normalisation is involved.
