# gcputil: an idempotent GCP deployment reconciler, modelled in Dafny

`gcputil.py` deploys the resources a YAML template declares by driving the
`gcloud` and `bq` command-line tools. It is idempotent: each resource spec
is resolved against the template's parameters, fingerprinted with two
SHA-256 digests and compared with the cache file written on the last
deployment. An unchanged resource is left alone. A resource whose
updatable part changed is updated in place. A resource whose identity
changed is created anew, and the old one is deleted at the end of the run.
`make` deploys the specs in dependency order and then deletes whatever the
template no longer declares. `remove` deletes every spec, each only after
every spec that refers to it.

The model follows the program's structure, one module per concern:

- `Values`: YAML/JSON documents (dictionaries are ordered field lists, as
  Python dicts are) and the Python exceptions, as a `Result` error.
- `Command`: the command lines handed to `gcloud` and `bq`. Arguments that
  Python builds by iterating a set are kept as a set of parts whose order
  is left open.
- `Flags`: `flag`, `flagGroup`, `flagOption`, `tagValue`, `bqflagValue`.
- `Invoke`: the argument lists of `_gcloud` and `_bq`, and the first call
  of the gcloud and bq updaters.
- `Bind`: `prepareUnbind`, `aslist`, the removal/addition/update plan of
  `_updateBind`, and the calls of `_deleteBind`.
- `Materialize`: `_sub` (as a function and as the in-place loop it is),
  the `_sub_`, `_zip_` and `_yml_` handlers, `traverse` and `makeDepend`.
- `Order`: Python's ordering of strings and pairs and `sorted`.
- `Fingerprint`: `flatten` and the two SHA-256 pre-images of `makeHash`.
- `Template`: `merge` and `readConfig`, both as functions and as the
  in-place `conf.update` loops the code runs.
- `Reconcile`: the `Engine` class holds the run's state: the parameters,
  the cache (a map from resource name to `Input`/`Output` entry),
  `hold['$bye']`, the other lists of `hold`, and the log of calls sent.
  Its methods are `updateResource` and its three updaters,
  `updateCache`, `parse`, `deleteResource` and `clean`.
- `Schedule`: the two drivers. `make` has its dependency collection, its
  `kick`/`deg`/`work` loop and the final `clean`. `remove` has its ID
  stamping and its deletion loop.

The remote side is a function parameter `respond`. It maps the calls sent
so far and the next call to a reply: a failure, an empty output or a
document. The files the fingerprint reads are a parameter `disk`, and
SHA-256 is a parameter `sha` returning 64-character digests. The cache
directory is the engine's `cache` map: a file's presence is a key, a
`readCache` is a lookup, and `os.remove` drops the key.

The source has no `try`/`except`. Any exception and any non-zero exit
status of a command therefore ends the whole run. The model returns `Err`
from the operation and from every caller above it. A failure therefore
does not end just the branch of the resource it belongs to: it ends the
whole run, as the code does.

## Model

| member | source | states |
|---|---|---|
| Values.Section | gcputil.py:47 | `d.get(k, {})` used as a dictionary: succeeds exactly when the key is missing (giving no fields) or holds a dictionary (giving its fields) |
| Values.Index | gcputil.py:112 | `d[k]` succeeds exactly when the key is present and gives its value; otherwise it is a `KeyError` naming `k` |
| Values.Put | gcputil.py:171 | `d[k] = v`: afterwards `k` holds `v` and every other key holds what it held; a new key goes last |
| Values.Remove | gcputil.py:172 | `d.pop(k)`: afterwards `k` is absent, every other key is unchanged, and the key set loses exactly `k` |
| Values.Iterate | gcputil.py:340 | `for x in v` visits a list's elements or a dictionary's keys in order, and fails exactly on numbers, booleans and `None` |
| Values.Show | gcputil.py:43 | `str(v)`: a string is its own text, a list is bracketed by `[` and `]`, and a dictionary by `{` and `}` |
| Flags.Flag | gcputil.py:41-43 | a flag starts with `-`, is the key with each capital letter turned into the separator and its lower case, and carries `=value` exactly when a value is given |
| Flags.CamelDashed | gcputil.py:41-43 | for a key without the separator, the dashed form can be turned back into the key: no information is lost |
| Flags.FlagInjective | gcputil.py:41-43 | two keys without the separator give the same bare flag only when they are the same key |
| Flags.FlagValue | gcputil.py:41-47 | a document value `None` gives the bare flag, and any other value gives `=str(value)` |
| Flags.FieldFlags | gcputil.py:47 | one flag per entry of a section, in order, each from the entry's key and value |
| Flags.FlagGroup | gcputil.py:46-47 | `flagGroup` succeeds exactly when every named section is missing or a dictionary |
| Flags.FlagGroupMembers | gcputil.py:46-47 | a flag is emitted exactly when some entry of some named section produces it |
| Flags.UpdateKeys | gcputil.py:53 | `set(x.get('Update', []))`: empty when there is no `Update`, and exactly the `Update` keys when it is a dictionary |
| Flags.ClearGroups | gcputil.py:50-55 | every emitted group is a single `--clear-…` flag named by a member of `clearopt` |
| Flags.ClearFlagInjective | gcputil.py:50-55 | two members of `clearopt` give the same clear flag only when they are the same member |
| Flags.ClearGroupsExact | gcputil.py:50-55 | the clear flag for a member of `clearopt` is emitted exactly when the cached `Update` had that key and the spec's `Update` does not |
| Flags.FlagOption | gcputil.py:52-57 | `flagOption` begins with the clear flags of `ClearGroups` on the two `Update` key sets, followed by one bare flag per name listed under `Flag`, in order |
| Flags.PairsLookup | gcputil.py:69 | in a dictionary without repeated keys, `(k, v)` is one of `items()` exactly when `k` holds `v` |
| Flags.LabelRemovals | gcputil.py:79 | a label is removed exactly when the cached labels have it and the spec's labels do not |
| Flags.LabelChanges | gcputil.py:82 | `(k, v)` is set exactly when the spec's labels give `k` the value `v` and the cached labels do not |
| Flags.UnchangedLabelNotEmitted | gcputil.py:79-85 | a label both sides give the same value is neither removed nor set |
| Flags.LabelDiffExample | gcputil.py:79-85 | an illustration on one concrete pair, not a general property: with old labels `a:1, b:2` and new labels `b:2, c:3`, only `a` is removed and only `c:3` is set |
| Flags.TagValue | gcputil.py:76-91 | `tagValue` succeeds exactly when both `Tag` sections and both `Labels` sections are missing or dictionaries and every other spec tag section is a dictionary |
| Flags.TagValueLabels | gcputil.py:77-85 | `--remove-labels=` is emitted exactly when some label is removed; `--labels` (create) or `--update-labels` (otherwise) is emitted exactly when some label changes, followed by the changed `k=v` items |
| Flags.TagValueSections | gcputil.py:86-91 | a tag section that only the cache has gets `--clear-…`; each spec tag section gets `--set-…` followed by its `k=v` items |
| Flags.TagValueLabelsOnly | gcputil.py:77-85 | the arguments before the tag sections are exactly the `--remove-labels=` argument when a label is removed and the `--labels`/`--update-labels` pair when a label changes, and nothing else |
| Flags.TagValueSectionsOnly | gcputil.py:86-91 | the last two arguments are exactly the clear groups and the set groups of the tag sections |
| Flags.TagClears | gcputil.py:86-88 | a `--clear-…` group is present exactly for each tag section other than Labels that only the cache has |
| Flags.TagSets | gcputil.py:86-91 | a `--set-…` group with its `k=v` items is present exactly for each tag section other than Labels that the spec has |
| Flags.BqOptionSnake | gcputil.py:63 | a bq option is `--`, the key's first letter in lower case, the rest with capitals turned into `_` and lower case, and `=str(v)` unless `v` is `None` |
| Flags.BqOptions | gcputil.py:62-63 | one bq option per entry of the sections, in order |
| Flags.BqSections | gcputil.py:61-62 | the `Create`/`Update` options succeed exactly when each section used is missing or a dictionary |
| Flags.Labels | gcputil.py:64-65 | `tags.get('Labels', {})` on `conf.get('Tag', {})` succeeds exactly when both levels are missing or dictionaries |
| Flags.BqClears | gcputil.py:66-67 | one `--clear_label=k:v` argument per label removed, with its cached value, and nothing else |
| Flags.BqSets | gcputil.py:68-70 | one `--label=k:v` (create) or `--set_label=k:v` (otherwise) argument per changed label, and nothing else |
| Flags.SchemaItems | gcputil.py:73 | the schema entries give text exactly when each unpacks into two items, and then one `k:v` item per entry, in order |
| Flags.SchemaArg | gcputil.py:71-73 | no schema argument when `Schema` is falsy; otherwise exactly the one argument `--schema=` followed by the items joined with `,` |
| Flags.BqFlagValue | gcputil.py:60-73 | `bqflagValue` succeeds exactly when the option sections, both label sections and the schema are well formed; it emits the snake_case options of Create (when creating) and Update, then the label clears, then the label sets, then the `--schema` argument, and nothing else |
| Flags.BqFlagValueLabels | gcputil.py:64-70 | on labels without repeated keys, a label only the cache has is cleared with its old value, and a new or changed label is set with its new value |
| Invoke.Types | gcputil.py:95 | `conf['Type']` must be a list of strings, and is given element by element |
| Invoke.Kind | gcputil.py:126 | `conf['Type'][0]` is the first type, and an empty type list is an `IndexError` |
| Invoke.Id | gcputil.py:95 | `conf['ID']` as an argument succeeds exactly when it holds a string |
| Invoke.GcloudArgs | gcputil.py:95-98 | the argument list is the Type path, the mode, the target, the Parent flags, `--quiet --format=yaml` and the options, in that order and nothing more |
| Invoke.GcloudRequest | gcputil.py:94-99 | a gcloud call succeeds exactly when `Type` is a list of strings, every Parent section is a dictionary, and the target (the temporary name when truthy, else `ID`) is a string; its arguments are the types, the mode, the target, the Parent flags, `--quiet --format=yaml`, then the given option arguments |
| Invoke.BqRequest | gcputil.py:102-108 | a bq call is the mode (`create` as `mk`, `delete` as `rm`), `--force=true` exactly for those two, the options, then `--format=json` and the ID; it fails exactly when the ID is not a string |
| Invoke.UpdateGcloudRequest | gcputil.py:156-160 | the gcloud updater's call uses `deploy` for functions, otherwise `create` in create mode and `update` in the other modes |
| Invoke.UpdateGcloudArgs | gcputil.py:157-160 | the call targets `Name` when creating with a truthy `Name`, and the ID otherwise; it ends with the `Create`/`Update` flags, then `flagOption`, then `tagValue`, whose labels use create mode only for a create that is not a function |
| Invoke.UpdateBqRequest | gcputil.py:164-165 | the bq updater's call is `mk --force=true` in create mode and `update` otherwise, then exactly the arguments of `bqflagValue`, then `--format=json` and the ID |
| Bind.PrepareUnbind | gcputil.py:111-114 | the binding call's spec has exactly `Type` (the types without the first and the last) and `Parent` (without `ID`); the mode is `remove-` plus the last type; the target is the parent's `ID` |
| Bind.ModesShareGroup | gcputil.py:145-148 | rewriting the mode `remove-g` gives `add-g`, and rewriting that gives `update-g` |
| Bind.PyEq | gcputil.py:149 | Python's `==` as the comparison of the two `Update` sections: on `None` and strings it is identity, and a list or dictionary equals only a value of its own kind; Bind.PyEqReflexive and Bind.PyEqIgnoresOrder give the rest |
| Bind.PyEqReflexive | gcputil.py:149 | every document without repeated keys equals itself |
| Bind.PyEqIgnoresOrder | gcputil.py:149 | a dictionary without repeated keys at any depth equals, under Python's `==`, every dictionary of the same size that looks up each key to the same value, whatever its key order |
| Bind.ListOf | gcputil.py:135 | a list is taken as it is, and any other value as a one-element list |
| Bind.ListsOf | gcputil.py:133-135 | `el[k]` for every key succeeds exactly when every key is present, and gives each value as a list |
| Bind.AsList | gcputil.py:132-135 | `el and keys` yields nothing for a falsy iterable tag (and fails on a falsy non-iterable one) and nothing for a truthy tag with no keys; with keys, it yields the lists of the keys for a dictionary and fails at `el[k]` for any other value |
| Bind.ProductMember | gcputil.py:141 | a tuple is in `product(*lists)` exactly when it has one element from each list, in order |
| Bind.Tuples | gcputil.py:141 | the tuples are the non-empty members of the product of `aslist` |
| Bind.TuplesMember | gcputil.py:141 | for a non-empty tag and keys, a tuple is a binding exactly when it takes one value for each key from that key's list |
| Bind.EmptyTagNoTuples | gcputil.py:133-141 | a falsy iterable tag, or a truthy tag with no keys, gives no bindings, since the lone empty tuple is dropped |
| Bind.KeyFlags | gcputil.py:144 | `map(flag, keys, xs)` pairs keys and values position by position and stops at the shorter |
| Bind.PlanBind | gcputil.py:138-150 | the keys are `list(conf['Tag'])`; the removals are the cached bindings the spec no longer has, the additions the spec's bindings the cache lacks, and the updates the bindings both have, exactly when `Update` differs |
| Bind.TagKeys | gcputil.py:139 | `list(tag)` succeeds exactly when the tag iterates to strings, and gives them in order: the keys of a dictionary, nothing for an empty tag |
| Bind.PlanBindEmptyTag | gcputil.py:139-150 | an empty `Tag` (`[]`, `''` or `{}`) has no keys and plans no removal, addition or update, whatever the cache holds |
| Bind.PlanBindReachesTag | gcputil.py:141-150 | applying the removals and additions to the cached bindings gives the spec's bindings, no binding is both removed and added, and only kept bindings are updated |
| Bind.PlanBindIdempotent | gcputil.py:141-150 | with the cache holding the same `Tag` and `Update` as the spec, nothing is removed, added or updated |
| Bind.BindRequestModes | gcputil.py:142-150 | the removal, addition and update calls carry the modes `remove-g`, `add-g` and `update-g` of one group `g` |
| Bind.ListKeys | gcputil.py:119 | the product keys are exactly the tag keys whose value is a list, and there are none when no tag value is a list |
| Bind.RequestsFor | gcputil.py:121-122 | one gcloud call per tuple, in order, each carrying the scalar tag flags and the flags of its tuple |
| Bind.DeleteBindRequests | gcputil.py:117-122 | a tag without list values makes exactly one call |
| Bind.DeleteBindVerbs | gcputil.py:117-122 | every call of `_deleteBind` is a gcloud call whose verb is the `remove-…` mode of `prepareUnbind` |
| Materialize.Split | gcputil.py:256 | `s.split(c)` gives at least one piece, and no piece holds `c` |
| Materialize.JoinSplit | gcputil.py:256-265 | joining the pieces of a split with the separator gives the string back |
| Materialize.SplitJoin | gcputil.py:256-265 | splitting a join of separator-free pieces gives the pieces back |
| Materialize.SplitOnce | gcputil.py:258 | `x.split('}', 1)` unpacks exactly when `}` occurs, into the text before the first `}` and the rest |
| Materialize.Prefix | gcputil.py:263 | `x.split('.', 1)[0]` holds no dot, is `x` when `x` has no dot, and is followed in `x` by `.` and the rest otherwise |
| Materialize.Sub | gcputil.py:255-265 | `_sub`'s in-place loop over the pieces gives the resolved text and state of `SubSpec` |
| Materialize.SubNoBraces | gcputil.py:255-265 | text without `{` is returned unchanged, and so is the state |
| Materialize.SubFirstToken | gcputil.py:255-265 | in `a{x}b`, a string value of `x` replaces `{x}`; another non-`None` value is a `TypeError`; with no value, in dry mode `x` is registered with its root's value (a `KeyError` when the root is no parameter), and otherwise the text stays without its `{`; `b` is then resolved from the state after `x` |
| Materialize.SubSpecToken | gcputil.py:255-265 | the resolved text is the text before the first `{`, what the first reference became, and the rest resolved from the state after it |
| Materialize.SubSpecTokenErr | gcputil.py:255-265 | a failing first reference makes the whole substitution fail with its error |
| Materialize.SubFails | gcputil.py:257-264 | a failing piece ends the substitution with that piece's error |
| Materialize.SubOne | gcputil.py:258-264 | the in-place body of `_sub`'s loop for one piece computes exactly `SubStep`: the piece is split at its first `}` (no `}` is a `ValueError`); a non-`None` value of the reference replaces it, a non-string one being a `TypeError`; otherwise, in dry mode, the reference is registered with its root's value (a `KeyError` when the root is no parameter) and awaited; else the piece stays |
| Materialize.SubStepGrows | gcputil.py:258-264 | one substitution step only adds parameters under dotted names or fills keys that held `None`, only adds to the wait set, and keeps every registered reference a parameter |
| Materialize.AddFile | gcputil.py:243 | adding a path to the file set keeps every file, adds the path, adds nothing else, and repeats no path |
| Materialize.Pair2 | gcputil.py:240 | `src, dst = v` succeeds exactly when `v` iterates to two items, and gives them in order |
| Materialize.TemplateDoc | gcputil.py:271 | `params['$data'][src]` is the entry `src` of the template, and a missing `$data` is a `KeyError` |
| Materialize.SubHandler | gcputil.py:312 | `_sub_` takes a string only, and gives its substitution |
| Materialize.ZipHandler | gcputil.py:239-243 | `_zip_` returns the destination and records `src.zip` for a `gs://` destination and the destination itself otherwise |
| Materialize.YmlFinish | gcputil.py:272-274 | `_yml_` returns the destination; it records it as a file exactly when nothing is waiting and files are collected, and it fails exactly when it must record a destination that is not a string |
| Materialize.TraverseSubDict | gcputil.py:230-232 | a one-key `_sub_` dictionary is replaced by its handler's result |
| Materialize.Traverse | gcputil.py:225-232 | a scalar comes back as it is with the state unchanged, and a list comes back as a list of the same length; the rest of `traverse` is stated by Materialize.TraversePlain, Materialize.TraverseSubDict and Materialize.TraverseGrows |
| Materialize.TraversePlain | gcputil.py:225-232 | a document with no handler dictionary comes back unchanged, and the state with it |
| Materialize.TraverseGrows | gcputil.py:225-232 | resolving a document only adds parameters under dotted names or fills keys that held `None`, only adds to the wait set and the file list, and keeps the registration invariant and duplicate-free files |
| Materialize.MakeDepend | gcputil.py:281-284 | every dependency is an undotted parameter name; parameters with a value keep it; new parameters only appear under dotted names |
| Materialize.MakeDependOne | gcputil.py:281-284 | a lone unresolved `{x}` makes its root the one dependency and registers `x` with the root's value |
| Materialize.ResolveForDelete | gcputil.py:374 | a spec without handler dictionaries is deleted as it is |
| Order.StrLeIsTotalOrder | gcputil.py:301-302 | Python's string ordering is a total order |
| Order.PairLeIsTotalOrder | gcputil.py:301 | Python's ordering of `(str, str)` tuples is a total order |
| Order.StrLe | gcputil.py:301-302 | `a <= b` on strings holds exactly when `a` is a prefix of `b` or, at the first position where they differ, `a` has the smaller character |
| Order.PairLe | gcputil.py:301 | `p <= q` on `(str, str)` tuples holds for equal tuples, holds when the first string is strictly smaller, and fails when it is strictly larger; Order.PairLeIsTotalOrder proves it a total order |
| Order.Sort | gcputil.py:301-302 | `sorted` returns a permutation of its input |
| Order.SortSorted | gcputil.py:301-302 | `sorted` returns a sorted sequence |
| Order.SortedUnique | gcputil.py:301-302 | under a total order, two sorted arrangements of one multiset are equal |
| Order.SortDependsOnlyOnMultiset | gcputil.py:301-302 | inputs that are permutations of each other sort to the same sequence |
| Fingerprint.FlattenCount | gcputil.py:287-294 | `flatten` yields exactly one pair per scalar of the document |
| Fingerprint.FlattenUnder | gcputil.py:287-294 | flattening under a path is flattening under the empty path with that path put in front of every pair |
| Fingerprint.FlattenPaths | gcputil.py:289-294 | a dictionary entry `k: v` contributes the pairs of `v` under `.k`, and list elements sit under `[]` |
| Fingerprint.FlattenFieldsPermutation | gcputil.py:290 | reordering a dictionary's entries does not change the multiset of its pairs |
| Fingerprint.Utf8Char | gcputil.py:301 | UTF-8 encodes a character in 1 to 4 bytes, one byte exactly for ASCII, which is its code |
| Fingerprint.Ascii | gcputil.py:304 | `.encode('ascii')` succeeds exactly on ASCII text, and gives each character's code |
| Fingerprint.AsciiIsUtf8 | gcputil.py:301-304 | on ASCII text the ASCII and UTF-8 encodings agree |
| Fingerprint.MakeHash | gcputil.py:297-305 | `makeHash` gives exactly two digests, the SHA-256 of each pre-image, and fails exactly when a pre-image cannot be built |
| Fingerprint.PreimageLayout | gcputil.py:298-304 | the identity pre-image ends with the ASCII `Type/ID` path; the file bytes go into the update pre-image for functions and into the identity pre-image otherwise |
| Fingerprint.Digest1Inputs | gcputil.py:298-303 | two specs that agree on `Update`, `Flag`, `Tag` and on being functions have the same update pre-image: `Type`, `ID`, `Parent` and `Create` do not feed it |
| Fingerprint.Digest0Inputs | gcputil.py:298-304 | two specs that agree on `Parent`, `Create`, `Type` and `ID` have the same identity pre-image: `Update`, `Flag` and `Tag` do not feed it |
| Fingerprint.SectionItemsOrderFree | gcputil.py:300-301 | sections whose flattened pairs agree as multisets give the same sorted items |
| Fingerprint.PreimagesOrderFree | gcputil.py:300-303 | the pre-images depend neither on the order of the sections' data nor on the order in which the files were collected |
| Fingerprint.SectionReorderKeepsPairs | gcputil.py:290-301 | reordering the keys of a section leaves its multiset of pairs unchanged |
| Fingerprint.Flatten | gcputil.py:287-294 | `flatten` as a definition without a contract of its own; its properties are Fingerprint.FlattenCount, Fingerprint.FlattenUnder, Fingerprint.FlattenPathsExtend, Fingerprint.FlattenPaths and Fingerprint.FlattenFieldsPermutation |
| Fingerprint.FlattenPathsExtend | gcputil.py:287-294 | every path `flatten` yields starts with the path it was given |
| Fingerprint.Preimages | gcputil.py:297-304 | the pre-images exist exactly when `Type` has a first element, the `Type/ID` path can be built, and it is ASCII; their layout is Fingerprint.PreimageLayout |
| Template.NewItems | gcputil.py:329 | an element is appended exactly when the fragment has it and the spec's list does not |
| Template.Merge | gcputil.py:323-329 | a missing spec value takes the fragment's value; a scalar fragment keeps the spec's value; a dictionary fragment needs a spec dictionary and gives the union of the keys; a list fragment keeps the spec's list as a prefix, then appends exactly the new elements |
| Template.MergeFields | gcputil.py:328 | the spec's entries keep their keys and order; the merge succeeds exactly when every entry's merge with the fragment's value does, and each entry then holds that merge |
| Template.MergeLookup | gcputil.py:328 | in a merged dictionary, a spec key holds the merge of the two values and any other key holds the fragment's value |
| Template.SpecScalarWins | gcputil.py:324-329 | a value the spec sets survives a fragment value that is not a dictionary or a list |
| Template.MergeUniqueKeys | gcputil.py:328 | merging dictionaries without repeated keys gives one without repeated keys |
| Template.MergeAsWritten | gcputil.py:326 | as written, `merge` raises `TypeError` whenever the spec value cannot be made a set, whatever the fragment is |
| Template.MergeFieldsAsWritten | gcputil.py:328 | the dictionary branch of `merge` as written keeps the spec's keys and order; Template.MergeFieldsCorrectionAgrees relates it to the corrected one |
| Template.MergeCorrectionAgrees | gcputil.py:323-329 | wherever the code as written succeeds, the corrected merge gives the same result |
| Template.MergeScalarFinding | gcputil.py:326 | a spec `MaxInstances: 2` merged with `Memory` defaults fails as written, and the corrected merge keeps both |
| Template.MergeInto | gcputil.py:341 | `conf.update(...)` with one fragment gives the spec's keys plus the fragment's |
| Template.MergeIntoKeeps | gcputil.py:341 | under the corrected merge, a key the spec holds as a scalar keeps its value (as written, `readConfig` raises `TypeError` there instead: Template.LoadConfigScalarFinding) |
| Template.MergeIntoNew | gcputil.py:341 | a key the spec lacks takes the fragment's value |
| Template.AliasFragments | gcputil.py:340 | every alias named must be a string that names a dictionary in `Alias`, and the fragments are those dictionaries, in the order named |
| Template.Fragments | gcputil.py:338-340 | the fragments are `Defaults` first, then the aliases in the order listed |
| Template.MergeAll | gcputil.py:339-341 | merging every fragment in turn keeps every key of the spec; Template.MergeAllKeys and Template.FirstScalarWins give the rest |
| Template.ExpandSpec | gcputil.py:338-341 | only a dictionary spec expands, and its expansion keeps every key of the spec other than `Alias`; Template.AliasRemoved and Template.LoadConfigSpecs give the rest |
| Template.ExpandAll | gcputil.py:338-341 | the expanded specs are as many as the specs, each under its own name, in order |
| Template.LoadConfig | gcputil.py:332-342 | the load succeeds exactly when the template is a dictionary with a `Resources` dictionary, `Parameters` is missing or a dictionary, and every spec expands; the loaded specs keep the names and order of `Resources` |
| Template.MergeAllKeys | gcputil.py:340-341 | an expanded spec has its own keys plus every key some fragment sets |
| Template.AliasRemoved | gcputil.py:340-341 | `Alias` is gone from an expanded spec exactly when no fragment sets it again |
| Template.FirstScalarWins | gcputil.py:338-341 | under the corrected merge, for a key the spec lacks, the earliest fragment that sets it to a scalar decides its value |
| Template.WithNames | gcputil.py:337 | the parameters gain exactly the resource names as keys |
| Template.LoadConfigParams | gcputil.py:335-337 | after loading, every resource name is a parameter holding `None`, `$data` holds the template unless a resource takes that name, and the other parameters are the template's `Parameters` |
| Template.LoadConfigSpecs | gcputil.py:338-342 | each loaded spec keeps its name and position and is the spec without `Alias`, with `Defaults` and then its aliases merged in |
| Template.UpdateConf | gcputil.py:341 | the in-place `conf.update` loop computes `MergeInto` |
| Template.ExpandConf | gcputil.py:339-341 | the loop body for one spec computes its expansion `ExpandSpec` |
| Template.ExpandSpecs | gcputil.py:339-341 | the loop over all specs computes `ExpandAll`, stopping at the first error |
| Template.ReadConfig | gcputil.py:332-342 | `readConfig` on a loaded template computes `LoadConfig`, the load with the corrected merge |
| Template.MergeIntoCorrectionAgrees | gcputil.py:341 | wherever one `conf.update` pass succeeds as written, the corrected pass gives the same spec |
| Template.MergeIntoAsWritten | gcputil.py:341 | one `conf.update` pass of `readConfig` as written gives the spec's keys plus the fragment's; Template.MergeIntoCorrectionAgrees relates it to the corrected pass |
| Template.MergeAllAsWritten | gcputil.py:339-341 | merging all fragments as written keeps every key of the spec; Template.MergeAllCorrectionAgrees relates it to the corrected merging |
| Template.ExpandSpecAsWritten | gcputil.py:338-341 | one spec expanded as written: only a dictionary expands, keeping every key other than `Alias` |
| Template.ExpandAllAsWritten | gcputil.py:338-341 | every spec expanded as written, each under its own name, in order; Template.ExpandAllCorrectionAgrees relates it to the corrected expansion |
| Template.LoadConfigAsWritten | gcputil.py:332-342 | `readConfig` as written succeeds exactly when the template is a dictionary with a `Resources` dictionary, `Parameters` is missing or a dictionary, and every spec expands as written; Template.LoadConfigCorrectionAgrees and Template.LoadConfigScalarFinding relate it to the corrected load |
| Template.MergeAllCorrectionAgrees | gcputil.py:339-341 | wherever merging all fragments succeeds as written, the corrected merging gives the same spec |
| Template.ExpandAllCorrectionAgrees | gcputil.py:339-341 | wherever expanding every spec succeeds as written, the corrected expansion gives the same specs |
| Template.LoadConfigCorrectionAgrees | gcputil.py:332-342 | wherever `readConfig` as written succeeds, the corrected load gives the same parameters and specs |
| Template.LoadConfigScalarFinding | gcputil.py:326 | a spec `Port: 8080` under `Defaults: {Port: 80}` makes `readConfig` as written raise `TypeError`, while the corrected load keeps the spec's port |
| Reconcile.Diff | gcputil.py:198 | the comparison covers the shorter of the two digest lists, position by position |
| Reconcile.Decide | gcputil.py:197-206 | a spec is unchanged exactly when no compared digest differs, and then takes the cached ID; otherwise the cached spec is retired exactly when there is a cache and digest 0 differs; a resource not retired uses the cache as the record; the record is `{ID: ID-0}` exactly when the retired spec has the same Type and ID; create mode is chosen exactly when the old spec is retired or the cache has fewer than two keys |
| Reconcile.DecideNew | gcputil.py:197-207 | with no cache file, the resource is created and nothing is retired |
| Reconcile.DecideSame | gcputil.py:198-202 | a cache with the same digests and an ID is left unchanged, and its ID is taken |
| Reconcile.DecideUpdate | gcputil.py:198-207 | a spec whose digest 1 changed but digest 0 did not is updated with the cache as the record, and nothing is retired |
| Reconcile.Prepared | gcputil.py:170-172 | the spec sent is the spec without `PipeErr`, taking the record's `ID` when the record is not empty (a `KeyError` when that record has no `ID`), with every other key unchanged |
| Reconcile.Hold | gcputil.py:208 | `hold[kind].append(v)` appends to that list only, creating it when it is new |
| Reconcile.HeldId | gcputil.py:208 | the value held is the output's `id` when truthy, and its `name` otherwise |
| Reconcile.LoadYaml | gcputil.py:161 | loading the output fails exactly when the command failed |
| Reconcile.LoadJson | gcputil.py:166 | `json.loads` succeeds exactly on a non-empty output |
| Reconcile.ApplyOutput | gcputil.py:318 | the parameter update adds no key |
| Reconcile.LastValue | gcputil.py:318 | it finds no value exactly when no pair has the key; otherwise it finds the value of the last pair with that key |
| Reconcile.ApplyOutputLast | gcputil.py:318 | each parameter takes the text of the last output pair under its name, and keeps its value when no pair names it |
| Reconcile.DeleteRequests | gcputil.py:125-127 | `Type[0]` picks the deleter: a bigquery resource is deleted with the one `bq rm` call, a binding with the calls of `_deleteBind`, and any other resource with the one `gcloud … delete` call |
| Reconcile.RetireRequests | gcputil.py:215-216 | the deletions of the retired specs, newest first, stopping at the first failure; a definition without a contract of its own, whose step is Reconcile.RetireStep and which Reconcile.Engine.DeleteRetired and Reconcile.Engine.Clean are proved against |
| Reconcile.StaleRequests | gcputil.py:217-219 | the deletions of the named cache entries, in the order named, with a `KeyError` for a name without an entry; a definition without a contract of its own, whose step is Reconcile.StaleStep and which Reconcile.Engine.DeleteStale and Reconcile.Engine.Clean are proved against |
| Reconcile.RecordedId | gcputil.py:201-209 | the ID written to the cache is the ID of the spec `updateCache` returns |
| Reconcile.Elements | gcputil.py:217 | iterating a set visits each member once, in some order |
| Reconcile.Engine.Call | gcputil.py:19-28 | a call appends the request to the log, gets the remote reply, and changes nothing else |
| Reconcile.Engine.SendAll | gcputil.py:121-127 | the deletion calls are sent one after another, each appended to the log; a failure ends the run; on success the log grows by exactly the calls; no other state changes |
| Reconcile.Engine.UpdateGcloud | gcputil.py:156-161 | the updater sends its create, update or deploy call; a failure ends it; a document output is the result; an empty output is followed by `describe`, whose output is loaded |
| Reconcile.Engine.UpdateBq | gcputil.py:164-166 | the updater sends `mk` or `update`, then `show`, and the result is `show`'s output loaded as JSON |
| Reconcile.Engine.SendStage | gcputil.py:143-150 | one stage of `_updateBind` sends one call per tuple of that stage, each tuple once, in some order |
| Reconcile.Engine.SendTuple | gcputil.py:143-150 | one call of a binding stage: the request for one tuple is appended to the log after those already sent, and a request that cannot be built or a failed call ends the stage; no other state changes |
| Reconcile.Engine.SendPlan | gcputil.py:142-150 | the log grows by exactly the removal calls, then the addition calls, then the update calls of the plan, each tuple once in some order |
| Reconcile.Engine.UpdateBind | gcputil.py:138-151 | `_updateBind` sends exactly the calls of its plan, all removals first, then all additions, then all updates, each tuple once, and returns the spec's ID as `id` |
| Reconcile.Engine.UpdateResource | gcputil.py:169-175 | the spec sent is `Prepared`; the gcloud and bq updaters start with their update call; a binding sends exactly the calls of its plan on the prepared spec, stage by stage, and returns its ID |
| Reconcile.Engine.UpdateCache | gcputil.py:196-210 | an unchanged spec sends nothing, changes nothing and takes the cached ID and output; otherwise the old spec is retired exactly when `Decide` says so, and the cache entry and `hold` are written with the spec as sent and its output; the cache gains only this name and keeps every other entry; on error the cache is untouched |
| Reconcile.Engine.Redeploy | gcputil.py:203-210 | the changed branch retires the cached spec when told, sends the spec, records its ID in `hold`, then writes the cache entry |
| Reconcile.Engine.Parse | gcputil.py:308-320 | a spec still waiting for a reference deploys nothing and answers false, keeping only the dry registrations; otherwise the resolved spec gets its digests as `$hash`, and `Decide` on that spec and the cached input holds: when unchanged, no call is sent and the cache, `bye` and `hold` stay; when applied, `bye` gains the cached input exactly when it is retired, the cache entry becomes the spec as sent with its output, and `hold` records its ID; then the parameters named by the output's flattened paths take their values, and its name becomes a parameter holding the cached ID; no other cache entry changes, and the cache's names are the old ones plus this name after a true answer and the old ones after a false one |
| Reconcile.Engine.DeleteResource | gcputil.py:125-129 | the deletion sends exactly the calls of `DeleteRequests`, then drops the cache entry when one is named |
| Reconcile.Engine.DeleteRetired | gcputil.py:215-216 | the retired specs are deleted newest first |
| Reconcile.Engine.DeleteEntry | gcputil.py:218-219 | one stale entry is deleted with its cached spec, then dropped from the cache |
| Reconcile.Engine.DeleteStale | gcputil.py:217-219 | every cache entry not in `used` is deleted once, in some order, and dropped; the others stay |
| Reconcile.Engine.Clean | gcputil.py:213-219 | `clean` deletes the retired specs newest first, then each stale entry once; afterwards the cache keeps only its entries with used names, unchanged |
| Schedule.CollectDeps | gcputil.py:348-350 | every spec has a dependency row; every dependency is an undotted parameter; the dry run adds parameters only under dotted names and keeps every value already set |
| Schedule.KickOf | gcputil.py:347-350 | `kick[x]` holds `n` exactly when spec `n` depends on `x` |
| Schedule.MakeStart | gcputil.py:351-352 | at the start, `work` is the specs that wait for nothing, `deg` counts each spec's dependencies, and the loop invariant holds |
| Schedule.MakeWait | gcputil.py:355 | a parse that answers false only takes the name out of `work`; the loop invariant holds with that spec counted as tried |
| Schedule.KickRow | gcputil.py:357 | the row `kick` holds for a name not yet done is exactly the specs that depend on it |
| Schedule.AdvanceDeg | gcputil.py:356 | after `deg.subtract(kick[name])` each count is again the number of dependencies its spec still waits for |
| Schedule.ReadyFresh | gcputil.py:357 | a spec whose count reaches zero was never parsed, and all its dependencies are done |
| Schedule.AdvanceWork | gcputil.py:357 | the new `work` holds only untried specs whose dependencies are all done |
| Schedule.StillWaiting | gcputil.py:357 | a spec that is neither tried nor in `work` still waits for a dependency |
| Schedule.MakeAdvance | gcputil.py:355-357 | a successful parse keeps the loop invariant: the counts drop, the newly ready specs join `work`, the row leaves `kick`, and the name takes the next rank |
| Schedule.AdvanceStep | gcputil.py:354-357 | either answer of `parse` for a name taken from `work` keeps the loop invariant, with the name tried, and done and ranked next exactly when the answer is true |
| Schedule.ParseStep | gcputil.py:354 | one call of `parse` recorded as a trace entry: its name, its answer, the parameters before and after; the answer is the one `parse` gives for the spec, a success is recorded in the cache under the ID its name took, the cache gains at most that name and keeps every other entry, and a false answer leaves the cache as it was |
| Schedule.RecordedKept | gcputil.py:317 | a cache change that touches only one name keeps the records of every earlier call for other names |
| Schedule.TracedStep | gcputil.py:353-354 | one more call, for a name not parsed yet whose references all succeeded, extends the trace: each name still parsed once and in order, the answers and the parameter chain extended, the cache still gaining exactly the successes and keeping every other entry |
| Schedule.OnceEach | gcputil.py:353 | in the trace no two calls parse the same name |
| Schedule.OnceCard | gcputil.py:353 | the trace has as many calls as names parsed |
| Schedule.InOrderEach | gcputil.py:351-357 | each call parses a spec all of whose references succeeded in earlier calls |
| Schedule.AnsweredEach | gcputil.py:354 | each call's answer is what `parse` gives for that spec from the parameters before the call |
| Schedule.TraceNamesHas | gcputil.py:353 | every call's name is among the names parsed |
| Schedule.RecordedEach | gcputil.py:354 | the cache records each successful call under the ID its name took |
| Schedule.ChainedEach | gcputil.py:354 | the first call starts from the parameters the loop started with, each later call from those the one before left, and the last leaves the loop's final parameters |
| Schedule.ProgressStart | gcputil.py:351-352 | before the first call the loop invariant and an empty trace hold |
| Schedule.ProgressStep | gcputil.py:353-357 | one turn of the loop, with the answer and the cache that `parse` leaves, keeps the loop invariant and extends the trace by that call |
| Schedule.Turn | gcputil.py:353-357 | one turn of the loop: it parses a name from `work` and moves `work`, `deg`, `kick` and `rank` so that the invariant holds over the trace extended by that call |
| Schedule.ParseReady | gcputil.py:351-357 | the calls to `parse` form a trace: each spec parsed at most once, only after all its references succeeded in earlier calls, answered as `parse` does from the parameters the previous call left; the cache gains exactly the specs parsed with success, each recording the ID its name took, and keeps every other entry; every spec whose references all succeeded is parsed; `kick` ends as the rows of the names never parsed with success, which are ranked in a dependency order |
| Schedule.RecordedClean | gcputil.py:358 | `clean` on a set holding every parsed name keeps the record of every successful call |
| Schedule.Make | gcputil.py:345-361 | `make` collects the dependencies and runs the loop from the template's parameters, so that its calls form the trace of `ParseReady` (each spec once, in dependency order, answered as `parse` does, chained through the parameters); after `clean` the cache still records every success and holds only declared or still-waited-for names; it reports `zombi` with exactly the rows of the names never parsed with success when any remain, and `done` otherwise |
| Schedule.CycleNeverDone | gcputil.py:353-357 | no spec on a cycle of references is ever parsed with success |
| Schedule.CachedId | gcputil.py:368 | the cached ID is found exactly when the cache has the entry and its spec has an `ID` |
| Schedule.AssignIds | gcputil.py:367-368 | the loop succeeds exactly when every spec is a dictionary with a cached ID; then every spec and the parameter of its name take that ID, and the other parameters are unchanged |
| Schedule.Referrers | gcputil.py:366 | the reversed table has a row for every spec and every name referred to, and `n` is in the row of `x` exactly when spec `n` refers to `x` |
| Schedule.Tally | gcputil.py:369 | `deg` counts, for each name, the specs that refer to it |
| Schedule.TallyWork | gcputil.py:370 | at the start, `work` is exactly the specs nothing refers to |
| Schedule.RemoveStart | gcputil.py:369-370 | the deletion loop's invariant holds at the start |
| Schedule.RemoveDeg | gcputil.py:376 | after `deg.subtract(kick[name])` each count is again the number of specs not yet deleted that refer to the name |
| Schedule.ReadyAfterDelete | gcputil.py:377 | a name whose count reaches zero was not deleted yet, and every spec referring to it is gone |
| Schedule.WorkAfterDelete | gcputil.py:377 | the new `work` holds only names not deleted whose referrers are all gone |
| Schedule.WaitingAfterDelete | gcputil.py:377 | a name neither deleted nor in `work` is still referred to by a spec not deleted |
| Schedule.RemoveAdvance | gcputil.py:373-377 | deleting a ready spec keeps the loop invariant, and the spec takes the next rank |
| Schedule.DeleteSpec | gcputil.py:374-375 | one deletion drops exactly that spec's cache entry, and leaves the cache as it was on error |
| Schedule.Positive | gcputil.py:379 | `deg.elements()` is exactly the names with a positive count |
| Schedule.Referred | gcputil.py:378-379 | the names some spec not yet deleted still refers to |
| Schedule.StillReferred | gcputil.py:378-379 | the names with a positive count are exactly those some spec not deleted still refers to |
| Schedule.DeleteReady | gcputil.py:369-379 | every spec deleted went only after every spec referring to it; no spec that could still go is left; the cache loses exactly the deleted specs; the result names exactly the names still referred to |
| Schedule.DeleteAll | gcputil.py:367-379 | the IDs are stamped, then the deletion loop runs with the result of `DeleteReady` |
| Schedule.Remove | gcputil.py:364-380 | `remove` deletes a spec only after every spec referring to it has been deleted, leaves none that could go, drops exactly the deleted specs' cache entries, and reports `zombi` exactly when some name is still referred to |

## Left out

- Input and output are not modelled: `print`, the reading and writing of
  cache files and templates (`read`, `write`, `readCache`, `yaml.dump`),
  and YAML/JSON parsing. A template arrives as a loaded document, and the
  cache directory is a map.
- `call`'s subprocess, its `stderr` piping and the `PipeErr` switch's
  effect on it are not modelled. A call is a request in the log, and its
  reply comes from `respond`.
- `listBucket` and the `gsutil rm` of the function buckets at the end of
  `clean` are left out: they only reach Cloud Storage, and the model keeps
  no bucket state.
- `_zip`'s file listing, modification-time check, archive writing and
  `gsutil cp` are left out. Only the archive path it adds to the file set,
  and its result, are modelled.
- `_yml`'s rendering and writing of the YAML file is left out. Only the
  path it adds to the file set, and its result, are modelled.
- SHA-256 itself is the parameter `sha`, and file contents are the
  parameter `disk`. Only the bytes fed into each digest are modelled.
- The order in which arguments built by iterating a Python set are
  emitted is left open (the `Joined` and `Shuffled` tokens); so is the
  order of `work.pop()` and of the stale cache names in `clean`. Each loop
  is proved for any order.
- `Joined` holds its parts as a set of rendered strings, so two label
  pairs that render to the same text count once: the key `a=b` with the
  value `c` and the key `a` with the value `b=c` both give `a=b=c`. The
  source builds its set from the pairs and renders them afterwards, so it
  emits such a text twice.
- Python sets of files are duplicate-free sequences in insertion order.
  `makeHash` sorts them, and `Fingerprint.PreimagesOrderFree` shows the
  order does not matter.
- The key order of a dictionary produced by `merge` (a set comprehension
  in the source) is fixed here as the spec's keys followed by the
  fragment's other keys.
- Python's `1 == True` is modelled only where the binding updater
  compares documents with `==` (Bind.PyEq, which also ignores key order).
  Set membership and set differences (Template.NewItems,
  Flags.LabelChanges, Bind.Tuples) treat `1` and `True` as different
  values. The equal hashing of `1` and `1.0` is not modelled, and
  floating-point values are left out.
- Flags.IsUpper, Flags.Lower and Flags.Upper handle ASCII letters only,
  where Python's `str.isupper` and `str.lower` follow Unicode.
  Flags.LabelChanges builds its set of pairs without Python's hashability
  check, so a list-valued label succeeds where the source raises
  `TypeError`. Values.Show quotes strings inside lists and dictionaries
  without the escaping of Python's `repr`.
- Exceptions are collapsed into a few kinds (`KeyError`, `TypeError`,
  `IndexError`, `ValueError`, a failed command). An `AttributeError` from
  a value of the wrong type counts as a `TypeError`.
- `$data` holds the template itself. Python aliases that object with the
  specs `readConfig` updates in place; the model keeps a copy.
- Documents are not required to have unique keys. Properties that need
  them say so in their `requires` (`UniqueKeys`).
- `clean` reads the cache directory once, after the retired specs are
  deleted. The model lists the cache map at that point.
- Schedule.AssignIds: `remove` stamps each spec with its ID inside the
  loop; the model stamps them once the loop is through, since an error
  ends the run either way.
- Schedule.DeleteSpec, Schedule.DeleteReady, Schedule.DeleteAll and
  Schedule.Remove do not state the calls each deletion sends. That is
  stated once, by Reconcile.Engine.DeleteResource.
- Reconcile.Engine.UpdateResource states only the first call of the
  gcloud and bq updaters. The rest of each updater is stated by
  Reconcile.Engine.UpdateGcloud and Reconcile.Engine.UpdateBq. For the
  binding updater it states every call.
- Template.MergeIntoKeeps, Template.MergeInto, Template.LoadConfig,
  Template.ReadConfig, Template.FirstScalarWins, Template.MergeAllKeys,
  Template.AliasRemoved, Template.LoadConfigSpecs, Template.UpdateConf,
  Template.ExpandConf and Template.ExpandSpecs use the corrected merge of
  the Findings table. They
  succeed where `readConfig` as written raises `TypeError`.
  Template.LoadConfigAsWritten models the code as written, and
  Template.LoadConfigCorrectionAgrees shows the two loads agree wherever
  the code as written succeeds.
- Bind.TagKeys, Bind.PlanBind: a truthy `Tag` list whose elements are not
  all strings is a `TypeError` at `list(tag)` in the model. Python takes
  such elements as keys and may index the list by them; a key that is not
  a string later fails in `flag` once a call is made.
- Bind.DeleteBindRequests states the number of calls only when no tag
  value is a list. With list values, the calls are those of
  Bind.RequestsFor over the product of the lists.

## Findings

| source | as written | input that shows it | evidently intended | confidence | as-written member | corrected member |
|---|---|---|---|---|---|---|
| gcputil.py:323-329 | `merge` evaluates `set(el)` before it looks at the fragment's type, so a spec value that cannot be a set (a number, a boolean, or a list holding dictionaries or lists) raises `TypeError` even where the spec's value is simply to be kept | a spec `Update: {MaxInstances: 2}` with `Defaults: {Update: {Memory: 256MB}}`: `merge({MaxInstances: 2}, {Memory: 256MB})` calls `merge(2, None)` for the key only the spec sets, and `set(2)` raises `TypeError` | take `set(el)` only in the dictionary and list branches, so a scalar on the spec is kept | not executed | Template.MergeAsWritten, Template.MergeScalarFinding, Template.LoadConfigScalarFinding | Template.Merge |
