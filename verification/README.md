# Facts-to-submodel converter of ansible-collection-aas, in Dafny

The Ansible collection for the Asset Administration Shell (AAS) turns a host's
facts into a Submodel. Facts are a free-form document of nested mappings,
lists and scalars. The converter walks that document and builds a tree of
typed submodel elements:

- a scalar becomes a `Property` with a value type of `xs:boolean`,
  `xs:integer`, `xs:float` or `xs:string`;
- a mapping becomes a `SubmodelElementCollection`;
- a list becomes a `SubmodelElementList`.

A scalar's key is normalised by `get_id_short`. Without a prefix the result
is a legal `idShort` or empty; behind a prefix it is legal exactly when the
prefix is. A scalar whose key normalises to nothing, or to an illegal id, is dropped.
Collection and list keys are used as written, except that `convert_to_sm.py`
normalises collection ids.

The repository has two near-identical converters, and the model keeps them
apart:

- `plugins/module_utils/convert.py` (module `ConvertUtils`) names a
  collection by its raw key. It gathers list entries as id-keyed set members,
  so the scalars of one list collapse into a single property. It has no
  fallback for mixed value types, but since a list keeps at most one property
  it never needs one.
- `plugins/modules/convert_to_sm.py` (module `ConvertToSm`) normalises
  collection ids. It keeps every list entry. When the element library
  rejects a list for mixed value types (constraint AASd-109), it rebuilds
  every child as a String property. It can also attach a parent reference and
  a semantic reference to the submodel.

## Modules

- `Common`: `Option`, `Result` and the `Fault`s the element library raises.
- `IdShort`: the identifier normaliser `get_id_short`. `Normalize` is the
  string function; `GetIdShort` adds the handling of absent arguments.
- `Facts`: the input document (`Scalar`, `Value`, `Entry`), the value
  classifier and the decimal text of integers.
- `Elements`: the output elements, and the element library's constraints
  stated abstractly:
  - the idShort grammar (AASd-002);
  - unique ids inside a collection (AASd-022);
  - the element type of list children (AASd-108);
  - the value type of list children (AASd-109).
- `ElementSet`: the Python `set` the converters gather elements into.
  `PropertySetElement` compares and hashes on its id alone. Every other
  element is a distinct object.
- `Leaves`: `process_property`, which is the same in both converters.
- `convert_to_sm.py` carries its own copies of `get_id_short` (lines 86-102),
  `PropertySetElement` (105-120) and `process_property` (191-216). They match
  `aas_utils.py` and `convert.py` line for line, so each is defined once and
  shared by both converters.
- `Levels`: level shapes, and what a level's gathered elements are, stated
  independently of either converter.
- `ConvertUtils`, `ConvertToSm`: the two tree builders and their
  `convert_to_submodel`.
- `SeqMap`: mapping a function over a sequence, and permutations.
- `Wire`: the parts of the JSON output the unit tests look at: `modelType`
  names, `valueType` tags and the rendered value text.
- `Examples`: the documents of the repository's unit tests, and the inputs on
  which the two converters disagree.

## Model

| member | source | states |
|---|---|---|
| IdShort.Sanitize | plugins/module_utils/aas_utils.py:11 | The sanitised key holds only `[a-zA-Z0-9_]` and is never longer than the key. A key already made of those characters comes back unchanged. |
| IdShort.SanitizeKeepsIdChars | plugins/module_utils/aas_utils.py:11 | A character is in the sanitised key exactly when it is in the key and belongs to `[a-zA-Z0-9_]`. |
| IdShort.SanitizeAppend | plugins/module_utils/aas_utils.py:11 | Sanitising works character by character: sanitising a concatenation gives the concatenation of the sanitised parts. |
| IdShort.StripLeadingNonLetters | plugins/module_utils/aas_utils.py:20 | The result is a suffix of the input, and only non-letters were removed in front of it. The result is empty or starts with a letter. A letter-led input is unchanged. |
| IdShort.StripFacts | plugins/module_utils/aas_utils.py:11-20 | On a sanitised key, stripping yields nothing exactly when the key has no letter. Otherwise it yields a legal idShort. |
| IdShort.Normalize | plugins/module_utils/aas_utils.py:11-20 | With an empty prefix the id is legal or empty. A letter-led sanitised key is kept whatever the prefix. A non-letter-led one is appended to the raw prefix with `_` (the prefix is not sanitised). Otherwise the id is the sanitised key minus its leading non-letters. The id is empty exactly when the sanitised key has no letter and either there is no prefix or nothing survived sanitising. |
| IdShort.GetIdShort | plugins/module_utils/aas_utils.py:4-20 | An absent key gives an absent id for every level key. An absent level key behaves exactly like the empty one. |
| IdShort.NormalizeKeepsValid | plugins/module_utils/aas_utils.py:11-20 | A key that is already a legal idShort is its own normal form under every prefix. |
| IdShort.NormalizeIdempotent | plugins/module_utils/aas_utils.py:11-20 | With the empty prefix, normalising twice gives the same as normalising once. |
| IdShort.PrefixedValidIffPrefixValid | plugins/module_utils/aas_utils.py:15-17 | When a prefix is applied, the id is legal exactly when the raw prefix is a legal idShort. |
| IdShort.OneNonLetterStripped | plugins/module_utils/aas_utils.py:20 | A single leading non-letter in front of a legal id is removed, and nothing else is. |
| IdShort.NonLetterLedPrefixed | plugins/module_utils/aas_utils.py:15-17 | A non-letter-led key of id characters comes back verbatim behind the prefix and `_`. |
| IdShort.DigitLedKey | plugins/module_utils/aas_utils.py:15-20 | A digit followed by a legal id: without a prefix, the digit is dropped. With a prefix, the whole key is kept behind it. |
| IdShort.DigitLedExample | plugins/module_utils/aas_utils.py:15-20 | `"1abc"` normalises to `"abc"` with no prefix and to `"parent_1abc"` under `"parent"`. |
| Facts.Classify | plugins/module_utils/convert.py:73-80 | The four value kinds partition the scalars. Booleans are exactly `xs:boolean`, other integers `xs:integer`, floats `xs:float`, and everything else (strings and `None`) `xs:string`. |
| Facts.BoolCheckedBeforeInt | plugins/module_utils/convert.py:73-76 | A boolean passes Python's integer test, yet it is classified `xs:boolean`, because that test comes first. |
| Facts.IntToString | plugins/modules/convert_to_sm.py:137 | The text of an integer is non-empty and starts with `-` exactly when the integer is negative. |
| Facts.NatToStringValue | plugins/modules/convert_to_sm.py:137 | The decimal text of a natural number consists of digits, and reading those digits back gives the number. |
| Facts.IntToStringValue | plugins/modules/convert_to_sm.py:137 | The text of an integer is a signed digit string, and reading it back, sign included, gives the integer: `int(str(i)) == i`. |
| Elements.MakeProperty | plugins/module_utils/convert.py:87-91 | A property is created exactly when its id is absent or legal. It then carries the given id, kind and value. Otherwise the fault is an illegal idShort. |
| Elements.MakeCollection | plugins/module_utils/convert.py:37-40 | A collection is created exactly when its id is legal and no two children share an id. A bad id is reported before duplicate ids. |
| Elements.FirstOffence | plugins/modules/convert_to_sm.py:145-152 | No offence is found exactly when every child conforms. A type mismatch is found exactly when the first offending child has the wrong element type. A value-type mismatch is found exactly when the first offending child is a property of another kind. |
| Elements.MakeList | plugins/modules/convert_to_sm.py:145-150 | A list is created exactly when its id is legal and every child conforms to the declared type. Each failure names the first check that failed. |
| ElementSet.Add | plugins/module_utils/convert.py:16-24 | Adding to the set never loses an element, and the only element it can add is the new one. |
| ElementSet.Collect | plugins/module_utils/convert.py:111-128 | Every gathered element is the element produced by some entry. |
| ElementSet.CollectUnkeyed | plugins/modules/convert_to_sm.py:237-246 | Without id-keyed properties nothing is merged: the set holds every produced element (in the model's insertion order). |
| ElementSet.AddKeyed | plugins/module_utils/convert.py:16-24 | An id-keyed add keeps property ids pairwise distinct, adds the new element's id to the id set, and keeps every container. |
| ElementSet.CollectKeyedShape | plugins/module_utils/convert.py:16-24 | After id-keyed gathering: the properties have pairwise distinct ids; their ids are exactly the ids the entries produced; every container is kept, in order. |
| ElementSet.HasIdIffBuilt | plugins/module_utils/convert.py:20-24 | The set holds a property with a given id exactly when some entry produced a property with that id. |
| ElementSet.LastIsFirstIffNew | plugins/modules/convert_to_sm.py:105-113 | Adding a property changes the set exactly when no earlier property had its id. |
| ElementSet.CollectKeepsFirst | plugins/modules/convert_to_sm.py:105-113 | The first property produced with each id survives in the set. |
| ElementSet.CollectKeepsOnlyFirst | plugins/modules/convert_to_sm.py:105-113 | Every property in the set is the first one produced with its id; later ones are no-ops. |
| ElementSet.PropertyCountIsIdCount | plugins/module_utils/convert.py:16-24 | The set holds as many properties as there are distinct property ids among the entries. |
| Leaves.ProcessProperty | plugins/module_utils/convert.py:70-95 | A list entry always yields an id-less property. A keyed entry is kept exactly when its normalised key is a legal idShort, and then carries that id. The property's kind is the classification of its value. An empty id, or an id the library rejects, drops the entry without an error. |
| Leaves.EmptyIdDropped | plugins/module_utils/convert.py:84-85 | A key that normalises to the empty string produces no element. |
| Leaves.PrefixedKeptIffPrefixLegal | plugins/modules/convert_to_sm.py:203-216 | A prefixed scalar survives exactly when the enclosing key is a legal idShort. Otherwise the constraint violation is swallowed and the entry is dropped. |
| Levels.ScalarIdsEmptyPrefix | plugins/module_utils/aas_utils.py:8-9 | An empty and an absent level key give a mapping's scalars the same ids. |
| Levels.ValidKeysScalarIds | plugins/module_utils/convert.py:124-128 | When every key is already legal, no scalar is dropped or renamed: the property ids are the keys of the scalar entries. |
| Levels.OneElementPerEntry | plugins/module_utils/convert.py:124-128 | With distinct legal keys, the distinct scalar ids plus the container entries add up to the number of entries. |
| Levels.ValidKeysFirstScalars | plugins/module_utils/convert.py:124-128 | With distinct legal keys, every scalar entry is the first with its id and stands for the property named by its key. |
| Levels.MappingBuiltIds | plugins/module_utils/convert.py:124-128 | Per-entry outcomes of a mapping level: the produced ids are the level's scalar ids; the container positions are its container entries; the first producer of an id is the first scalar with that id. |
| Levels.MappingLevelFacts | plugins/module_utils/convert.py:124-135 | A mapping level gathered by id: property ids are distinct and equal the level's scalar ids; one container per container entry; the properties are exactly the first scalar with each id. |
| Levels.SequenceLevelKeyed | plugins/module_utils/convert.py:116-121 | A sequence level gathered by id keeps one container per container item. All its scalars collapse into the property of the first scalar. |
| Levels.SequenceLevelUnkeyed | plugins/modules/convert_to_sm.py:237-246 | A sequence level gathered without ids keeps one element per item, at the item's position (in the model's insertion order). |
| ConvertUtils.ProcessLevelElement | plugins/module_utils/convert.py:98-108 | A scalar entry is the outcome of `process_property`. A mapping becomes a collection named by the raw key. A sequence becomes a list named by the raw key. |
| ConvertUtils.ProcessDict | plugins/module_utils/convert.py:34-40 | A mapping becomes a collection whose id is the raw key. |
| ConvertUtils.AssembleList | plugins/module_utils/convert.py:47-67 | An empty list is a Property/String list. A collection-led list declares collections. A property-led list declares the first child's kind, and mixed kinds fail with a value-type mismatch. A list-led list has no value type. A created list keeps its children and conforms to its declaration. |
| ConvertUtils.ProcessList | plugins/module_utils/convert.py:43-67 | A sequence becomes a list whose id is the raw key. |
| ConvertUtils.ConvertToSubmodel | plugins/module_utils/convert.py:140-146 | Conversion succeeds exactly when the top level, built with prefix `""`, succeeds. The submodel has the given id and no parent or semantic reference. |
| ConvertUtils.TopLevelIds | plugins/module_utils/convert.py:140-142 | The submodel's property ids are the normalised ids of the kept top-level scalars. |
| ConvertUtils.MappingLevel | plugins/module_utils/convert.py:123-137 | A built mapping level has distinct property ids, equal to the level's scalar ids, and one container per container entry. Its properties are exactly the first scalar with each id. |
| ConvertUtils.SequenceLevel | plugins/module_utils/convert.py:115-121 | A built sequence level keeps one container per container item, and at most one property: that of the first scalar. |
| ConvertUtils.CollectionKeepsRawKey | plugins/module_utils/convert.py:34-40 | A mapping under a key that is not a legal idShort fails. Otherwise it becomes a collection named by the raw key, whose children are built with that raw key as prefix. |
| ConvertUtils.ScalarEntriesSucceed | plugins/module_utils/convert.py:94-95 | A level whose entries are all scalars never fails: a rejected scalar is dropped, not raised. |
| ConvertUtils.FlatFactsCount | plugins/module_utils/convert.py:140-142 | Flat facts always convert. The result holds only properties, one per distinct normalised id. |
| ConvertUtils.FlatFactsConvert | tests/unit/convert_to_sm/test_submodel_element.py:24-43 | Flat facts with distinct legal keys give exactly one property per fact, named by its key and holding its value. |
| ConvertUtils.ScalarListCollapses | plugins/module_utils/convert.py:116-121 | A non-empty list of scalars becomes a list holding the first scalar's property alone. |
| ConvertUtils.AssembleListNoMismatch | plugins/module_utils/convert.py:55-60 | A list with at most one property child never fails on value types. |
| ConvertUtils.LevelNoMismatch | plugins/module_utils/convert.py:111-128 | Building a level never fails with a value-type mismatch. |
| ConvertUtils.ElementNoMismatch | plugins/module_utils/convert.py:98-108 | No entry fails with a value-type mismatch, since every list holds at most one property. |
| ConvertUtils.NoValueKindFailure | plugins/module_utils/convert.py:140-142 | The value-type failure of list assembly cannot escape a whole conversion. |
| ConvertToSm.ProcessLevelElement | plugins/modules/convert_to_sm.py:219-229 | A scalar entry is the outcome of `process_property`. A mapping becomes a collection named by the normalised key. A sequence becomes a list named by the raw key. |
| ConvertToSm.ProcessDict | plugins/modules/convert_to_sm.py:123-130 | A mapping becomes a collection whose id is the key normalised with no prefix. |
| ConvertToSm.CollectionIdNormalised | plugins/modules/convert_to_sm.py:123-130 | A mapping whose key normalises to nothing fails. Otherwise it becomes a collection named by the normalised key, whose children are built with the raw key as prefix. |
| ConvertToSm.ConvertElementsToString | plugins/modules/convert_to_sm.py:133-140 | Degrading gives one id-less String property per child, holding that child's text, and the result conforms to a Property/String list. |
| ConvertToSm.StringifyPermutation | plugins/modules/convert_to_sm.py:133-140 | Degrading two arrangements of the same children gives two arrangements of the same String properties. |
| ConvertToSm.CreateSubmodelElementList | plugins/modules/convert_to_sm.py:143-163 | A first child that is not a property cannot type the list. Otherwise the list fails only on its id, or on a child of the wrong element type met before any kind mismatch. When the kinds agree, the children are kept as they are. When a kind mismatch comes first, every child is degraded to a String property. A value-type mismatch never escapes. |
| ConvertToSm.PropertiesNeverForeign | plugins/modules/convert_to_sm.py:151-161 | A list of properties never meets a child of the wrong element type, so the re-raise branch is never taken for it. |
| ConvertToSm.PropertyListOrderFree | plugins/modules/convert_to_sm.py:143-163 | For property children the outcome does not depend on the set's iteration order: the same declaration, and the same children up to order. |
| ConvertToSm.MixedListDependsOnOrder | plugins/modules/convert_to_sm.py:151-161 | With a collection among mixed properties, the outcome depends on order: one order is degraded, the other fails on the element type. |
| ConvertToSm.PropertyListAssembly | plugins/modules/convert_to_sm.py:143-163 | A non-empty list of properties always assembles. If the kinds agree, it is kept as is. If they disagree, it becomes the degraded Property/String list. |
| ConvertToSm.AssembleList | plugins/modules/convert_to_sm.py:170-188 | An empty list is a Property/String list. A collection-led list keeps its children and declares collections. A list-led list has no value type. A property-led list goes through `create_submodel_element_list`. A created list has one child per input child and conforms to its declaration. |
| ConvertToSm.ProcessList | plugins/modules/convert_to_sm.py:166-188 | A sequence becomes a list whose id is the raw key. |
| ConvertToSm.EmptyListIsStringList | plugins/modules/convert_to_sm.py:182-188 | An empty sequence under a legal key becomes a Property/String list without children. |
| ConvertToSm.ListKeepsEveryItem | plugins/modules/convert_to_sm.py:166-181 | A built list has exactly as many children as the sequence has items. |
| ConvertToSm.SequenceLevel | plugins/modules/convert_to_sm.py:237-246 | A built sequence level holds one id-less element per item, at the item's position (in the model's insertion order). A scalar item gives the property of its value, a mapping a collection, a sequence a list. |
| ConvertToSm.ScalarSequenceLevel | plugins/modules/convert_to_sm.py:237-246 | A sequence of scalars always builds, into one id-less property per item, in the model's insertion order. |
| ConvertToSm.ScalarListKept | plugins/modules/convert_to_sm.py:166-188 | A non-empty list of scalars keeps every item. Same kinds give a list of that kind with the original values. Mixed kinds give a Property/String list of the values' texts. |
| ConvertToSm.ListOfMappings | plugins/modules/convert_to_sm.py:171-176 | A sequence of mappings becomes a collection list, holding each mapping's collection in the model's insertion order. |
| ConvertToSm.MappingLevel | plugins/modules/convert_to_sm.py:248-262 | A built mapping level has distinct property ids, equal to the level's scalar ids, and one container per container entry. Its properties are exactly the first scalar with each id. |
| ConvertToSm.SingleEntryLevel | plugins/modules/convert_to_sm.py:249-253 | A one-entry mapping level holds exactly that entry's element. |
| ConvertToSm.NestedCollection | plugins/modules/convert_to_sm.py:123-130 | A legal key over a one-entry mapping gives a collection named by the key, holding exactly the entry's element. |
| ConvertToSm.FlatMappingLevel | plugins/modules/convert_to_sm.py:248-253 | A flat mapping with distinct legal keys builds into one property per entry, with unique ids. |
| ConvertToSm.FlatMappingConverts | plugins/modules/convert_to_sm.py:123-130 | A flat mapping with distinct legal keys becomes a collection with one property per entry. |
| ConvertToSm.ScalarEntriesSucceed | plugins/modules/convert_to_sm.py:191-216 | A level whose entries are all scalars never fails: a rejected scalar is dropped, not raised. |
| ConvertToSm.ConvertToSubmodel | plugins/modules/convert_to_sm.py:265-288 | Conversion succeeds exactly when the top level, built with prefix `""`, succeeds. The submodel has the given id. A parent gives exactly one AssetAdministrationShell key with its value, and a semantic id exactly one ConceptDescription key. An absent argument leaves its field unset. |
| ConvertToSm.TopLevelCount | plugins/modules/convert_to_sm.py:284 | The submodel's property ids are the kept top-level scalar ids. Its element count is their number plus the number of container facts. |
| ConvertToSm.OneTopLevelElementPerFact | tests/unit/convert_to_sm/test_ansible_facts_conversion.py:32-44 | Facts with distinct legal keys give exactly one top-level element per fact. |
| Wire.ModelTypeName | plugins/module_utils/convert.py:144-146 | The three `modelType` names are in one-to-one correspondence with the three element kinds. |
| Wire.KindOfTag | tests/unit/convert_to_sm/test_submodel_element.py:18 | Reading a `valueType` tag inverts the tag of a value kind. A tag no kind renders to reads as nothing. |
| Wire.RenderValue | plugins/module_utils/convert.py:144-146 | A property value is rendered exactly when it is present. |
| Wire.RenderedIsLoweredDisplay | tests/unit/convert_to_sm/test_submodel_element.py:55-63 | A boolean, an integer, or a string without upper-case letters renders as Python's `str(v).lower()`. |
| Examples.FlatFourKeys | tests/unit/convert_to_sm/test_submodel_element.py:9-53 | The four facts `key1` to `key4` give four properties named by the keys, typed `xs:string`, `xs:integer`, `xs:float` and `xs:boolean`, with the values the test expects. |
| Examples.ListOfTwoDicts | tests/unit/convert_to_sm/test_submodel_element_list_rec.py:9-57 | One list of two four-key mappings gives one top-level `SubmodelElementList` of two collections, with four elements each (in the model's insertion order). |
| Examples.NestedCollections | tests/unit/convert_to_sm/test_submodel_element_collection_rec.py:11-34 | Four nested mappings give four nested collections, with the innermost holding one String property (in the model's insertion order). |
| Examples.FourNestedMappings | tests/unit/convert_to_sm/test_submodel_element_collection_rec.py:11-21 | Four nested mappings under any legal keys, around one scalar, give exactly the nested collections named by those keys (in the model's insertion order). |
| Examples.IntegerListDiffers | plugins/module_utils/convert.py:116-121 | `[1, 2]` gives a one-child list in `convert.py` and a two-child list in `convert_to_sm.py`. |
| Examples.MixedListDiffers | plugins/modules/convert_to_sm.py:152-159 | `["x", 1]`: `convert.py` keeps only `"x"`; `convert_to_sm.py` keeps both, degraded to the Strings `"x"` and `"1"`. |

## Left out

- The HTTP clients (`ShellRepoClient`, `SmRepoClient`, `SmRegistryClient`) and
  every `run_module`/`main` are left out. They are network I/O and Ansible
  argument parsing. `convert_to_submodel` takes the submodel id, facts,
  parent and semantic id as parameters instead.
- The standard base64 encoding of identifiers (section 4 of RFC 4648) is left
  out. It is used only by the HTTP modules.
- The `sm_id_exists_in_keys` predicate is left out. It is part of an HTTP
  flow.
- The JSON encoder of the element library is left out. Only the `modelType`
  names, the `valueType` tags and the value text are modelled (`Wire`). The
  final `json.loads(json.dumps(...))` round trip is the identity in the
  model.
- The element library's classes are modelled only through the constraints
  the converters trip over (AASd-002, 022, 108, 109). The id length limit,
  and the checks on the submodel's own id and on `Key` values, are not
  modelled.
- Floats are opaque. `Flt(repr)` keeps Python's text of the float, and the
  model never computes it.
- Set iteration order is not modelled. The model gathers elements in
  insertion order, which is one legal Python order. The order-free facts are
  stated separately: id sets, counts, and `ConvertToSm.PropertyListOrderFree`.
  `ConvertToSm.MixedListDependsOnOrder` shows one case where Python's order
  does matter.
- A list whose first child is itself a list raises an uncaught
  `AttributeError` (convert.py:59, convert_to_sm.py:149). The model returns
  `Err(MissingValueType)` rather than excluding the case by a precondition.
- ConvertToSm.ConvertElementsToString: the degraded text of a collection
  or list child (Python's `str` of a library container) is not modelled.
  `Elements.ElementText` gives the empty string for it. For property
  children the text is modelled exactly.
- ConvertUtils.ProcessDict, ConvertUtils.ProcessList, ConvertToSm.ProcessDict
  and ConvertToSm.ProcessList: their own contracts name only the id and kind
  of the result. The children are stated by separate lemmas:
  ConvertUtils.CollectionKeepsRawKey, ConvertUtils.SequenceLevel,
  ConvertToSm.CollectionIdNormalised and ConvertToSm.ListKeepsEveryItem.
- ConvertUtils.ProcessLevelElement and ConvertToSm.ProcessLevelElement: the
  same holds for their mapping and sequence cases.
- Logging, `print` diagnostics, and the `inspect.stack()` calls are left out.
- The prefix handed to a scalar is the raw key of the immediately enclosing
  mapping or list entry (convert_to_sm.py:125 and :168, convert.py:36 and
  :45).
- Top-level assignment `submodel.submodel_element = ...` is modelled as a
  plain assignment, with no namespace check on the top level.

## Findings

| source | as written | input that shows it | evidently intended | confidence | as-written member | corrected member |
|---|---|---|---|---|---|---|
| plugins/module_utils/convert.py:116-121 | List entries are inserted into the set as `PropertySetElement`s with id `None`. All of them compare equal, so a list keeps only its first scalar. | facts `{"l": [1, 2]}`: the list `l` gets one child, the property `1`. | One child per list item. `convert_to_sm.py:242-246` does this by converting to a plain `Property` before insertion. | medium; not executed | ConvertUtils.ScalarListCollapses | ConvertToSm.ScalarListKept |
