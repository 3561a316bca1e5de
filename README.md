# VisTrails schema translation and VTK signature helpers, in Dafny

This project models two parts of VisTrails.

**The 2.0.0 → 1.0.4 schema translation** (`vistrails/db/versions/v1_0_4/translate/v2_0_0.py`).

- It translates four document kinds: the vistrail (version history), the workflow, the log and the registry.
- Each translator reads an optional `external_data` dictionary, which may hold:
  - `id_remap`: (entity type, old id) → new id;
  - `group_remaps`: old group id → that group's remap;
  - `translate_dict`: per-entity translation rules.
- Each translator then:
  1. installs (when missing) the `DBGroup` hook, which translates a group's embedded workflow under the group's own remap and stores the result back under the group's old id;
  2. seeds the root-action sentinel (vistrail only);
  3. upgrades and renumbers the document;
  4. rewrites the `__upgrade__` action annotations through the remap (vistrail only);
  5. stamps version `1.0.4`.
- `translateBundle` runs the four translators in a fixed order. Before the workflow and the log run, it seeds their extdata from an earlier document's extdata, using `remove_non_unique`, `copy_extdata` and `update_extdata`.

The model of this part is imperative:

- `external_data` is the class `ExtData`.
- A `group_remaps` dictionary is the class `GroupRemapTable`.
- A `translate_dict` is the class `TranslateDict`.
- Each translator is a method that changes these objects as the Python code does.
- Each method is proved against a specification function: `DocSpec`, `GroupsSpec`, `GroupSpec`, `VistrailSpec`, `Fixup`, `Unique`, `Merge` or, for translateBundle, `BundleOutcome` (the bundle as a function of the four extdata's remaps). Lemmas state the source's promises about those functions.
- The domain module (`update_version`, `do_copy`, the id scopes) is not shown. It is a `Domain` value of opaque functions.
  - `do_copy` returns the renumbered body and the mappings it allocated.
  - The remap after the copy is the seed plus those new mappings, with existing entries winning.

**The self-contained helpers of the VTK wrapper generator** (`vistrails/packages/vtk/generate/parse.py`):

- `resolve_overloaded_name`: overload naming;
- `get_port_types`: C type → port type;
- `is_type_allowed`: the allowed-type test;
- `prune_signatures`: its `flatten` (with the exceptions it raises and the nested lists it reverses and brackets in place), its hit counts, the `passes` filter, `removeBracts` (with the lists it reverses in place) and the duplicate removal;
- the enum-value loop of `get_state_ports`.

The pure ones are functions with lemmas. The loops are methods proved equal to specification functions.

Files:

- `wrappers.dfy`: `Option` and `Result`.
- `decimal.dfy`: Python's `"%d" % n` / `str(n)` and its inverse.
- `translate.dfy`: module `Translate`.
- `vtk_parse.dfy`: module `VtkParse`.

## Model

| member | source | states |
|---|---|---|
| Decimal.IntToStringRoundTrip | vistrails/db/versions/v1_0_4/translate/v2_0_0.py:123 | reading back the `"%d"` rendering of any integer gives that integer |
| Decimal.NatToStringInjective | vistrails/packages/vtk/generate/parse.py:321 | different numbers are rendered as different decimal strings |
| Translate.SeedRoot | vistrails/db/versions/v1_0_4/translate/v2_0_0.py:109-111 | the root sentinel is present afterwards; it maps to 0 unless the caller already mapped it; every other entry is unchanged |
| Translate.CopyRemap | vistrails/db/versions/v1_0_4/translate/v2_0_0.py:117 | the remap after `do_copy` keeps every mapping of the remap it was given; any other mapping is one `do_copy` allocated |
| Translate.FixupFailsIffUnknownAction | vistrails/db/versions/v1_0_4/translate/v2_0_0.py:119-124 | the annotation fix-up fails exactly when some `__upgrade__` annotation names an action the remap lacks, with a KeyError for that key |
| Translate.FixupSuccess | vistrails/db/versions/v1_0_4/translate/v2_0_0.py:119-124 | on success the other annotations stay in order; the upgrade annotations follow in order, each with its value replaced by the decimal new id of the action it named, which parses back to that id |
| Translate.FixupKeepsOthers | vistrails/db/versions/v1_0_4/translate/v2_0_0.py:119-124 | the fix-up keeps the number of annotations; the annotations without the `__upgrade__` key are exactly the same before and after |
| Translate.DeleteAnnotation | vistrails/db/versions/v1_0_4/translate/v2_0_0.py:122 | deleting an annotation removes exactly that annotation and keeps the others in order |
| Translate.MoveUpgrade | vistrails/db/versions/v1_0_4/translate/v2_0_0.py:121-124 | an upgrade annotation is deleted and re-added at the end with its renumbered value, or the KeyError is raised when its action has no mapping |
| Translate.FixupTurn | vistrails/db/versions/v1_0_4/translate/v2_0_0.py:120-124 | one turn of the loop keeps the annotation list equal to (left in place) + (not yet visited) + (moved to the end) |
| Translate.RemapUpgradeAnnotations | vistrails/db/versions/v1_0_4/translate/v2_0_0.py:119-124 | the delete-and-re-add loop over a snapshot gives the fix-up specification's result, including its error |
| Translate.GroupSpec | vistrails/db/versions/v1_0_4/translate/v2_0_0.py:94-104 | the translated group keeps its old id; under the hook its workflow carries version 1.0.4 |
| Translate.DocSpec | vistrails/db/versions/v1_0_4/translate/v2_0_0.py:158-162 | a translated document carries version 1.0.4 and as many groups as it had |
| Translate.UpdateWorkflowHook | vistrails/db/versions/v1_0_4/translate/v2_0_0.py:94-104 | the hook translates the group's workflow under the stored (or empty) remap and writes the resulting remap back under the group's old id, as the group specification says |
| Translate.HookStoresRemap | vistrails/db/versions/v1_0_4/translate/v2_0_0.py:143-153 | after the hook, the group's old id maps to its starting remap extended by the copy; entries of groups outside the group and its nested groups are unchanged and none are added |
| Translate.DocKeepsOtherGroups | vistrails/db/versions/v1_0_4/translate/v2_0_0.py:94-104 | translating a document changes only the `group_remaps` entries of its groups and their nested groups |
| Translate.GroupRemapRecorded | vistrails/db/versions/v1_0_4/translate/v2_0_0.py:143-153 | a group whose old id no other group carries ends up mapped to the remap its own translation produced |
| Translate.OtherRulesKeepTables | vistrails/db/versions/v1_0_4/translate/v2_0_0.py:155-156 | when the dict already held another `DBGroup` rule, no group-remap table changes |
| Translate.UpgradeGroups | vistrails/db/versions/v1_0_4/translate/v2_0_0.py:160 | the groups `update_version` meets are translated in order through the dict's group rule, each seeing the table its predecessors left |
| Translate.UpgradeDoc | vistrails/db/versions/v1_0_4/translate/v2_0_0.py:158-162 | upgrade, copy and stamp give the document, remap and table of the document specification |
| Translate.UpgradeInto | vistrails/db/versions/v1_0_4/translate/v2_0_0.py:160-161 | the caller's `id_remap` becomes the remap `do_copy` leaves when the caller has one; no other extdata key and no dict entry changes |
| Translate.DictWithHook | vistrails/db/versions/v1_0_4/translate/v2_0_0.py:138-141 | translateWorkflow uses the caller's own dict and installs the hook over the caller's `group_remaps` (or a new table) only when there is no `DBGroup` entry; otherwise it leaves the dict as it was |
| Translate.CopyDictWithHook | vistrails/db/versions/v1_0_4/translate/v2_0_0.py:89-92 | translateVistrail works on a new dict holding the caller's entries, plus the hook when they had no `DBGroup` entry |
| Translate.TranslateWorkflow | vistrails/db/versions/v1_0_4/translate/v2_0_0.py:129-163 | the output is version 1.0.4 and equals the specification; the caller's remap holds the copy's remap; the caller's dict gains the hook only when it had no `DBGroup` entry; the group tables end as specified, and when the dict already held a `DBGroup` entry, the caller's `group_remaps` table is unchanged unless it is the table that entry's hook writes into |
| Translate.UpgradeVistrail | vistrails/db/versions/v1_0_4/translate/v2_0_0.py:80-117 | the vistrail is translated under the caller's remap with the root sentinel seeded; the caller's dict entries are unchanged; when the dict already held a `DBGroup` entry, the caller's `group_remaps` table is unchanged unless it is the table that entry's hook writes into |
| Translate.TranslateVistrail | vistrails/db/versions/v1_0_4/translate/v2_0_0.py:80-127 | the result is the vistrail specification, version 1.0.4 or a KeyError on an unknown upgrade action; the caller's dict is never changed; the caller's remap and group tables end as specified; when the dict already held a `DBGroup` entry, the caller's `group_remaps` table is unchanged unless it is the table that entry's hook writes into |
| Translate.RootSentinelAfterVistrail | vistrails/db/versions/v1_0_4/translate/v2_0_0.py:109-111 | after translateVistrail the root sentinel maps to 0, or to the caller's own mapping, which is never overwritten; every mapping of the caller survives |
| Translate.TranslateLog | vistrails/db/versions/v1_0_4/translate/v2_0_0.py:165-180 | the log is translated under the caller's remap and dict without a hook of its own, stamped 1.0.4; the caller's remap holds the copy's remap |
| Translate.TranslateRegistry | vistrails/db/versions/v1_0_4/translate/v2_0_0.py:182-197 | the registry is translated likewise, stamped 1.0.4 |
| Translate.Unique | vistrails/db/versions/v1_0_4/translate/v2_0_0.py:205-211 | exactly the entries whose entity type is not listed, with their values |
| Translate.FilterRemap | vistrails/db/versions/v1_0_4/translate/v2_0_0.py:206-210 | the loop over the remap builds exactly that filtered remap |
| Translate.RemoveNonUnique | vistrails/db/versions/v1_0_4/translate/v2_0_0.py:205-211 | the extdata's remap is replaced by its filtered copy and no other key changes; a missing remap is the KeyError |
| Translate.CopyExtData | vistrails/db/versions/v1_0_4/translate/v2_0_0.py:213-214 | a new extdata with the same keys, whose dictionaries are new copies with equal contents |
| Translate.Merge | vistrails/db/versions/v1_0_4/translate/v2_0_0.py:216-221 | a missing key takes the incoming dict; an existing one keeps its entries except those the incoming dict overwrites, and gains the incoming ones |
| Translate.UpdateExtData | vistrails/db/versions/v1_0_4/translate/v2_0_0.py:216-221 | each key of the updates is merged into the existing dict in place, or stored as is when the key is absent |
| Translate.NewExtData | vistrails/db/versions/v1_0_4/translate/v2_0_0.py:239 | the default extdata: an empty remap, an empty group table, no translate dict |
| Translate.SeedFrom | vistrails/db/versions/v1_0_4/translate/v2_0_0.py:247-252 | the later extdata gains the earlier one's remap minus the stripped types, with incoming entries winning, and its group tables and dict entries; a source without a remap is the KeyError and changes nothing |
| Translate.SeededExt | vistrails/db/versions/v1_0_4/translate/v2_0_0.py:269-279 | the extdata a later step uses is the caller's, or a new default one when there is none; seeding fails exactly when the source extdata has no `id_remap`; otherwise the remap becomes the caller's (empty by default) updated with the source's minus the entries of the stripped types, source entries winning, and the `group_remaps` and `translate_dict` entries become the caller's updated with the source's (the workflow step at lines 245-252 is the same call with no stripped types) |
| Translate.BundleVistrail | vistrails/db/versions/v1_0_4/translate/v2_0_0.py:237-242 | the vistrail is translated under the caller's vistrail extdata or, when absent, a new `{"id_remap": {}, "group_remaps": {}}`; the output and that extdata's remap afterwards are those of the vistrail specification: version 1.0.4, or the annotation KeyError |
| Translate.BundleWorkflow | vistrails/db/versions/v1_0_4/translate/v2_0_0.py:244-256 | the workflow is translated on the caller's workflow extdata (or a new default one) after seeding it from the vistrail extdata with nothing stripped; the contents and the remap written back are the seeded step's (`SeededBody`), stamped 1.0.4, and the only failure is the source's missing `id_remap` |
| Translate.BundleLog | vistrails/db/versions/v1_0_4/translate/v2_0_0.py:269-283 | the log is translated on the caller's log extdata (or a new default one) after seeding it from the given source without the given types; its contents are the seeded step's (`SeededBody`), stamped 1.0.4, and the only failure is the source's missing `id_remap` |
| Translate.BundleRegistry | vistrails/db/versions/v1_0_4/translate/v2_0_0.py:285-292 | the registry uses only its own extdata or `{"id_remap": {}}`: it is the registry document specification under that extdata, stamped 1.0.4, its contents translated from that remap alone |
| Translate.LogStep | vistrails/db/versions/v1_0_4/translate/v2_0_0.py:269-283 | the log is seeded from the vistrail extdata without annotation ids when there is one, else from the workflow extdata; its contents and failure are `LogOutcome`'s of the three remaps, stamped 1.0.4; the registry extdata keeps its remap and reaches only what it reached |
| Translate.LogStage | vistrails/db/versions/v1_0_4/translate/v2_0_0.py:269-292 | when the four extdata are different objects, the log and registry outputs and the failure are `LogStageOutcome`'s of their remaps |
| Translate.WorkflowStep | vistrails/db/versions/v1_0_4/translate/v2_0_0.py:244-256 | the workflow's contents, the failure and the workflow extdata's remap afterwards are `WorkflowOutcome`'s; a default extdata is new; the other three extdata keep their remaps when the four are different objects |
| Translate.WorkflowStage | vistrails/db/versions/v1_0_4/translate/v2_0_0.py:244-292 | when the four extdata are different objects, the workflow, log and registry outputs and the failure are `WorkflowStageOutcome`'s: the log is seeded from the workflow extdata as the workflow step left it |
| Translate.VistrailStep | vistrails/db/versions/v1_0_4/translate/v2_0_0.py:237-242 | the vistrail output and the vistrail extdata's remap afterwards are `VistrailOutcome`'s of the caller's remap, group rule and tables; the other three extdata keep their remaps when the four are different objects |
| Translate.VistrailStage | vistrails/db/versions/v1_0_4/translate/v2_0_0.py:237-292 | when the four extdata are different objects, the whole output and the failure are `BundleOutcome`'s of the initial remaps, group rule and tables |
| Translate.TranslateBundle | vistrails/db/versions/v1_0_4/translate/v2_0_0.py:199-297 | the output bundle has the input's type and holds exactly the document kinds present in the input, each stamped 1.0.4; abstractions and mashups contribute nothing; failures are the two KeyErrors; when the caller's four extdata are different objects, success, the error, the vistrail and the contents of the other three are exactly `BundleOutcome`'s of the initial extdata |
| Translate.SeededBodyFacts | vistrails/db/versions/v1_0_4/translate/v2_0_0.py:244-283 | a workflow or log step fails exactly when it has a document and its source extdata has no `id_remap`, with the `id_remap` KeyError; otherwise the document is translated from its own remap (empty by default) updated with the source's minus the stripped types; without a document the extdata is left as it was |
| Translate.VistrailAfter | vistrails/db/versions/v1_0_4/translate/v2_0_0.py:237-242 | after the vistrail step the vistrail extdata exists exactly when it was given or the bundle has a vistrail, and holds the vistrail's remap unless it was given without one |
| Translate.BundleOutcomeFails | vistrails/db/versions/v1_0_4/translate/v2_0_0.py:237-283 | translateBundle fails exactly when the vistrail's annotation fix-up fails, or a workflow is present and the vistrail extdata lacks `id_remap`, or a log is present and its source (the vistrail extdata when there is one, else the workflow extdata) lacks `id_remap`; only the first is the annotation KeyError |
| Translate.BundleWorkflowSeed | vistrails/db/versions/v1_0_4/translate/v2_0_0.py:237-292 | on success the workflow is translated from its own remap (empty by default) updated with the vistrail extdata's remap after the vistrail step, when there is a vistrail extdata; the registry from its own remap alone |
| Translate.BundleLogSeed | vistrails/db/versions/v1_0_4/translate/v2_0_0.py:269-283 | on success the log is translated from its own remap (empty by default) updated with the vistrail extdata's remap minus the annotation ids, or, without a vistrail extdata, with the remap the workflow extdata holds after the workflow step |
| VtkParse.ResolveOverloadedName | vistrails/packages/vtk/generate/parse.py:314-321 | a single signature keeps the name; otherwise the name, `_` and exactly the decimal rendering of `ix + 1`, which parses back to `ix + 1` |
| VtkParse.OverloadNamesDistinct | vistrails/packages/vtk/generate/parse.py:314-321 | the overloads of an overloaded method get pairwise different names |
| VtkParse.GetPortTypes | vistrails/packages/vtk/generate/parse.py:347-348 | lists and tuples, and only they, map to lists of the same length |
| VtkParse.PortTypesElementwise | vistrails/packages/vtk/generate/parse.py:347-348 | element `i` of a converted list or tuple is the conversion of element `i` |
| VtkParse.PortTypesFollowLeaves | vistrails/packages/vtk/generate/parse.py:342-356 | the conversion keeps the nesting; the leaves of the result are the input's leaves converted one by one, in order |
| VtkParse.ConvertNameIdempotent | vistrails/packages/vtk/generate/parse.py:323-356 | converting a converted name gives it back: every value of `type_map_dict` is a non-blank name that is not itself a key |
| VtkParse.AllowedIffLeavesAllowed | vistrails/packages/vtk/generate/parse.py:358-365 | a list is allowed iff every element is; `None`, `"tuple"`, `"function"` and the disallowed classes are not allowed; everything else is |
| VtkParse.PortTypesAllowedIffLeaves | vistrails/packages/vtk/generate/parse.py:342-365 | a C signature's port types are allowed iff every C type name in it, converted, is allowed |
| VtkParse.Convert | vistrails/packages/vtk/generate/parse.py:200-222 | the loop gives `convert`'s items and leaves the entry as `ConvertEntry` says, or raises where it does |
| VtkParse.FlattenParams | vistrails/packages/vtk/generate/parse.py:196-225 | the loop gives `flatten`'s list and leaves the parameter part as `Flatten` says, or raises the first exception `convert` raises |
| VtkParse.BracketedFacts | vistrails/packages/vtk/generate/parse.py:211-214 | a nested list can be bracketed iff it is non-empty with strings at both ends; reversed and bracketed, it has the leaves of the reversed list |
| VtkParse.ConvertLoopOk | vistrails/packages/vtk/generate/parse.py:205-221 | `convert`'s loop over a list entry returns iff its nested lists come before every other element, each nested list can be bracketed, and the first other element is a string; its flags then say whether every element was a list |
| VtkParse.ConvertLoopElements | vistrails/packages/vtk/generate/parse.py:208-221 | the loop leaves each nested list reversed and bracketed, and every other element unchanged |
| VtkParse.ConvertLoopLeaves | vistrails/packages/vtk/generate/parse.py:208-221 | the items the loop returns have the leaves of the entry as it leaves it |
| VtkParse.ConvertEntryFacts | vistrails/packages/vtk/generate/parse.py:200-222 | `convert` returns iff the entry is accepted (`None` is not); its items have the leaves of the entry as left, which are those of the entry with its nested lists reversed |
| VtkParse.FlattenLoopFacts | vistrails/packages/vtk/generate/parse.py:223-225 | the loop over the entries returns iff every entry is accepted; its list has the leaves of the entries as left, each of which has the leaves of the entry with its nested lists reversed |
| VtkParse.FlattenFacts | vistrails/packages/vtk/generate/parse.py:196-225 | `flatten` returns iff every entry is accepted; the parameter part it leaves has the same kind and length, and the leaves of the part with every list nested in a list entry reversed; for a list or tuple the flattened list has those leaves too |
| VtkParse.FlattenAllFacts | vistrails/packages/vtk/generate/parse.py:227-228 | `flattened_entries` is computed iff `flatten` accepts every parameter part; it then holds `flatten`'s list for each signature, and each signature is left with `flatten`'s changes |
| VtkParse.PrunedFails | vistrails/packages/vtk/generate/parse.py:227-228 | `prune_signatures` raises iff `flatten` rejects some signature's parameter part |
| VtkParse.HitCount | vistrails/packages/vtk/generate/parse.py:229-234 | the count is the number of signatures, whatever entry it is asked about |
| VtkParse.SurvivorsMembership | vistrails/packages/vtk/generate/parse.py:256-273 | a signature survives the filter iff it is the signature at some index that passes with that index's flattened list and hit count: not forbidden, then hit count 1, `None` params, or (not an output with params, and params as long as the flattened list) |
| VtkParse.SurvivorsSubsequence | vistrails/packages/vtk/generate/parse.py:269-273 | the survivors keep their original relative order |
| VtkParse.StripBrackets | vistrails/packages/vtk/generate/parse.py:286-288 | no `[` or `]` is left; the other characters are kept, in order, each as often as in the input; a string without brackets is unchanged |
| VtkParse.PushFront | vistrails/packages/vtk/generate/parse.py:292-298 | reversing a list and inserting each element at the front puts the elements before the stack in their original order |
| VtkParse.RemoveBracts | vistrails/packages/vtk/generate/parse.py:281-301 | the stack loop lists the leaves left to right, lists and tuples opened, brackets stripped from names |
| VtkParse.RevAllInvolution | vistrails/packages/vtk/generate/parse.py:292-294 | reversing every list of a value twice gives it back; one reversal keeps its kind and length |
| VtkParse.DedupSignatures | vistrails/packages/vtk/generate/parse.py:303-309 | the loop keeps a signature exactly when no kept one before it has the same `removeBracts` form, and keeps it with every list reversed, as `removeBracts` leaves it |
| VtkParse.DedupKeepsFirstOfEachForm | vistrails/packages/vtk/generate/parse.py:303-309 | the kept signatures are exactly those whose form does not occur earlier in the input, in input order |
| VtkParse.DedupForms | vistrails/packages/vtk/generate/parse.py:303-309 | every input form is represented among the kept forms, and every kept form is an input form |
| VtkParse.DedupFormsDistinct | vistrails/packages/vtk/generate/parse.py:303-309 | no two kept signatures have equal `removeBracts` forms |
| VtkParse.PruneSignatures | vistrails/packages/vtk/generate/parse.py:227-309 | the caller's list ends as `Pruned`: flatten every signature (raising on the first `flatten` rejects), filter the signatures as flatten left them with every hit count equal to the number of signatures, keep the first of each form, each with its lists reversed by `removeBracts` |
| VtkParse.SelectedOrder | vistrails/packages/vtk/generate/parse.py:269-309 | the selection keeps the input order and its forms are pairwise different |
| VtkParse.SelectedPasses | vistrails/packages/vtk/generate/parse.py:256-309 | every selected signature passes with the number of signatures as hit count, and every passing signature's form is among the selected forms |
| VtkParse.PrunedUndone | vistrails/packages/vtk/generate/parse.py:292-309 | undoing the reversal by `removeBracts` turns the pruned list back into the selection |
| VtkParse.FlattenedForms | vistrails/packages/vtk/generate/parse.py:211-228 | the form a signature is compared by, after `flatten`, is that of the signature with each list nested in a list entry reversed |
| VtkParse.PrunedProperties | vistrails/packages/vtk/generate/parse.py:227-309 | on success, the pruned list (reversal undone) is an order-preserving sublist of the flattened signatures, each passing, with pairwise different forms; every passing signature's form is represented; forms are those of the signatures with nested lists reversed |
| VtkParse.PruneSingle | vistrails/packages/vtk/generate/parse.py:256-262 | a lone signature that `flatten` accepts is kept, as `flatten` and `removeBracts` leave it, unless forbidden |
| VtkParse.PruneOutputs | vistrails/packages/vtk/generate/parse.py:263-267 | among several signatures, an output signature survives only with `None` or empty parameters |
| VtkParse.NestedReversalMerges | vistrails/packages/vtk/generate/parse.py:211-214 | `([[a, b]], ())` and `([b, a], ())` returning `r` have one form once `flatten` has reversed the nested list, so only the first is kept, as `([[a + "]", "[" + b]], ())`: the nested list reversed back by `removeBracts`, still carrying the brackets `flatten` wrote |
| VtkParse.StateEnumValues | vistrails/packages/vtk/generate/parse.py:611-619 | the loop succeeds exactly when its specification does and returns its enum values; otherwise it raises "Duplicate entry with different value" |
| VtkParse.EnumFailsIffConflict | vistrails/packages/vtk/generate/parse.py:611-617 | the loop raises exactly when two modes that are not skipped give one name different values |
| VtkParse.EnumSpecSuccess | vistrails/packages/vtk/generate/parse.py:611-619 | on success the enum values are the modes that are not skipped, in first-seen order, and every such mode's value is recorded |
| VtkParse.FirstSeenDistinct | vistrails/packages/vtk/generate/parse.py:618-619 | no enum value is listed twice, and every mode name that is not skipped is listed |

## Left out

- `check_id_types` (v2_0_0.py:43-78) only prints diagnostics.
- `update_version`, `do_copy`, `IdScope` and `SaveBundle` live in a domain module that is not part of this model. They are opaque functions of `Domain`.
  - The model assumes only what the translators rely on: `do_copy` keeps the mappings it is given and adds mappings for the ids it allocates.
  - Other exceptions these functions may raise are not modelled.
- Entries of `translate_dict` other than `DBGroup` are handed to `update_version` unexamined. The model keeps only the group entry, as either the hook or an opaque caller-supplied rule.
- Group ids are not renumbered in the model: a translated group keeps its old id. In the source the renumbering happens inside `do_copy`, which is opaque here.
- An inner group remap is stored as a value. The model therefore does not capture a group's remap dict being shared with the caller after `group_remaps[old_id] = ...`.
- `Translate.GroupRemapRecorded` requires a group's old id to be unique among the document's groups (nested ones included). With repeated ids the later translation overwrites the earlier entry. `Translate.DocKeepsOtherGroups` still bounds which entries change.
- `id_remap` is modelled as a value reassigned in place. This is exact for a dict with a single owner, which is what `copy_extdata` gives each bundle step.
- The source writes the root sentinel into the caller's remap before `update_version`. The model folds that write into the seed handed to `do_copy` and writes the final remap back, so the caller sees the same final dictionary.
- translateBundle reads `translate_dict` (lines 200-203) but never uses it, so the model does not read it either.
- Translate.TranslateBundle: the ties to `BundleOutcome` hold when the caller's four extdata are different objects. When one dict is passed for two documents, a later step sees an earlier step's writes, and the model states only presence, version and the failure kinds.
- Translate.TranslateBundle: the group tables and `translate_dict` entries the bundle leaves in the caller's extdata are stated step by step (`Translate.SeededExt` and the translators), not as a function of the initial extdata.
- Translate.TranslateBundle: the workflow, log and registry are tied to `BundleOutcome` by their contents (`Body`), not by their groups. Their groups go through the group tables above.
- The log and the registry install no hook of their own. Their groups go through whatever the caller's dict holds (the hook another translator installed, a supplied rule, or the default rules).
- Decimal.ParseInt reads an optional minus sign followed by digits. Python's `int()` also accepts spaces, a plus sign and underscores. Only the round trip with `"%d"` is needed.
- `forbidden` is a function parameter (`ForbiddenTest`), because it inspects VTK classes with `issubclass`.
- `flatten` (parse.py:212-214) and `removeBracts` (parse.py:293) change the caller's lists in place. The model returns the changed signatures as values. It assumes no list object is shared between two signatures, or between a signature's return and parameter parts; with sharing, a change made through one would show in the other.
- When `flatten` raises part-way, the lists it already reversed stay reversed in the caller's signatures. The model returns only the exception.
- `RemoveBracts` returns the form only. The reversal it performs on the signature is stated by `RevAll`, which `DedupSignatures` applies to each kept signature.
- The final `else` branch of `removeBracts` (parse.py:299-300) handles values other than strings, None, lists and tuples. The parsed signatures hold no such value, so `PyVal` has no such case.
- `get_port_types` prints a message for raw type names not starting with `vtk`. That is output only.
- Of `get_state_ports`, only the enum-value loop is modelled. Indexing `state_dict`, naming the setter and building the port spec need the VTK class.
- The VTK-dependent parts of parse.py are not modelled: `create_module`, `get_doc`, `get_algorithm_ports`, `get_get_ports`, `get_get_set_ports`, `get_toggle_ports`, `get_other_ports`, `get_ports` and `parse()`. They read VTK classes through `getattr` and an unseen method parser, or write XML.
