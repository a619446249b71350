/** The Ansible-module converter (`plugins/modules/convert_to_sm.py`): mapping
    keys are normalised into collection ids, list entries are gathered as
    plain properties (so nothing in a list is merged), a list whose property
    children disagree on their value kind is rebuilt as a list of String
    properties, and the submodel may carry parent and semantic references. */
module ConvertToSm {
  import opened Common
  import opened IdShort
  import opened Facts
  import opened Elements
  import opened ElementSet
  import opened Leaves
  import opened Levels
  import opened SeqMap

  /** Dispatches one entry on the shape of its value. */
  function ProcessLevelElement(key: Option<string>, v: Value, levelKey: Option<string>): (r: Result<Option<Element>>)
    ensures v.Leaf? ==> r == Ok(ProcessProperty(key, v.scalar, levelKey))
    ensures r.Ok? && v.Mapping? ==>
              r.value.Some? && r.value.value.Collection? && r.value.value.id == GetIdShort(key, None)
    ensures r.Ok? && v.Sequence? ==> r.value.Some? && r.value.value.List? && r.value.value.id == key
    decreases v, 4, 0
  {
    match v
    case Mapping(_) =>
      var c :- ProcessDict(key, v);
      Ok(Some(c))
    case Sequence(_) =>
      var l :- ProcessList(key, v);
      Ok(Some(l))
    case Leaf(s) => Ok(ProcessProperty(key, s, levelKey))
  }

  /** A mapping becomes a collection whose id is the key normalised with an
      empty prefix; its entries are built with the raw key as fallback prefix. */
  function ProcessDict(key: Option<string>, v: Value): (r: Result<Element>)
    requires v.Mapping?
    ensures r.Ok? ==> r.value.Collection? && r.value.id == GetIdShort(key, None)
    decreases v, 3, 0
  {
    var children :- ProcessLevel(v, key);
    MakeCollection(GetIdShort(key, None), children)
  }

  /** The String property a list child is degraded to: no id, its value's display text. */
  function Degraded(e: Element): (p: Element)
    ensures p == Property(None, XsString, Str(ElementText(e)))
  {
    ProcessProperty(None, Str(ElementText(e)), Some("")).value
  }

  /** `convert_submodel_elements_to_string`: every child rebuilt as an id-less
      String property holding the text of its value. */
  function ConvertElementsToString(elems: seq<Element>): (r: seq<Element>)
    ensures |r| == |elems|
    ensures forall i :: 0 <= i < |elems| ==> r[i] == Property(None, XsString, Str(ElementText(elems[i])))
    ensures AllConform(r, OfProperty(XsString))
  {
    seq(|elems|, i requires 0 <= i < |elems| => Degraded(elems[i]))
  }

  /** Exactly one of: all conform, a foreign child first, a mismatched kind first. */
  lemma FirstOffenceCases(cs: seq<Element>, declared: ListType)
    ensures AllConform(cs, declared) || ForeignFirst(cs, declared) || MismatchFirst(cs, declared)
    ensures !(ForeignFirst(cs, declared) && MismatchFirst(cs, declared))
    ensures AllConform(cs, declared) ==> !ForeignFirst(cs, declared) && !MismatchFirst(cs, declared)
  {
    var r := FirstOffence(cs, declared);
  }

  /** Builds a list typed after its first child; when the library rejects a
      child for its value kind (constraint AASd-109) the list is rebuilt from
      String copies of every child. Any other rejection is passed on. */
  function CreateSubmodelElementList(id: Option<string>, elems: seq<Element>): (r: Result<Element>)
    requires |elems| > 0
    // a first child without a value type (a collection or a list) cannot type the list
    ensures !elems[0].Property? ==> r == Err(MissingValueType)
    // the outcome is always a homogeneous property list with one child per element
    ensures r.Ok? ==> && r.value.List? && r.value.id == id && r.value.declared.OfProperty?
                      && AllConform(r.value.children, r.value.declared)
                      && |r.value.children| == |elems|
    // it fails only on the id, or on a child of another element type met before any kind mismatch
    ensures elems[0].Property? ==>
              (r.Ok? <==> IdOk(id) && !ForeignFirst(elems, OfProperty(elems[0].kind)))
    ensures elems[0].Property? && IdOk(id) && AllConform(elems, OfProperty(elems[0].kind)) ==>
              r == Ok(List(id, elems, OfProperty(elems[0].kind)))
    ensures elems[0].Property? && IdOk(id) && MismatchFirst(elems, OfProperty(elems[0].kind)) ==>
              r == Ok(List(id, ConvertElementsToString(elems), OfProperty(XsString)))
    // a value-kind mismatch never escapes
    ensures r.Err? ==> r.fault != ValueTypeMismatch
  {
    if !elems[0].Property? then Err(MissingValueType)
    else
      var declared := OfProperty(elems[0].kind);
      FirstOffenceCases(elems, declared);
      match MakeList(id, elems, declared)
      case Ok(l) => Ok(l)
      case Err(f) =>
        if f == ValueTypeMismatch then
          var smele := ConvertElementsToString(elems);
          MakeList(id, smele, OfProperty(smele[0].kind))
        else
          Err(f)
  }

  /** The list rules: an empty list declares String properties, a list led by
      a collection declares collections, any other goes through
      `create_submodel_element_list`. */
  function AssembleList(key: Option<string>, children: seq<Element>): (r: Result<Element>)
    ensures r.Ok? ==> && r.value.List? && r.value.id == key
                      && |r.value.children| == |children|
                      && AllConform(r.value.children, r.value.declared)
    ensures children == [] ==> (r.Ok? <==> IdOk(key))
    ensures children == [] && r.Ok? ==> r.value.declared == OfProperty(XsString)
    ensures |children| > 0 && children[0].Collection? ==>
              (r.Ok? <==> IdOk(key) && AllConform(children, OfCollection))
    ensures |children| > 0 && children[0].Collection? && r.Ok? ==>
              r.value == List(key, children, OfCollection)
    ensures |children| > 0 && children[0].List? ==> r == Err(MissingValueType)
    ensures |children| > 0 && children[0].Property? ==>
              r == CreateSubmodelElementList(key, children)
  {
    if |children| > 0 then
      if children[0].Collection? then MakeList(key, children, OfCollection)
      else CreateSubmodelElementList(key, children)
    else
      MakeList(key, children, OfProperty(XsString))
  }

  /** A sequence becomes a list whose id is the raw key. */
  function ProcessList(key: Option<string>, v: Value): (r: Result<Element>)
    requires v.Sequence?
    ensures r.Ok? ==> r.value.List? && r.value.id == key
    decreases v, 3, 0
  {
    var children :- ProcessLevel(v, key);
    AssembleList(key, children)
  }

  /** Builds a level's entries in order and gathers them in a set; only in a
      mapping level are properties id-keyed set elements. */
  function ProcessLevel(level: Value, levelKey: Option<string>): (r: Result<seq<Element>>)
    requires IsLevel(level)
    decreases level, 2, 0
  {
    var built :- BuildEntries(level, levelKey, 0);
    Ok(Collect(built, level.Mapping?))
  }

  /** The outcomes of entries `i..` of a level; the first failing entry aborts. */
  function BuildEntries(level: Value, levelKey: Option<string>, i: nat): (r: Result<seq<Option<Element>>>)
    requires IsLevel(level) && i <= Width(level)
    decreases level, 1, Width(level) - i
  {
    if i == Width(level) then Ok([])
    else
      var e :- EntryOutcome(level, levelKey, i);
      var rest :- BuildEntries(level, levelKey, i + 1);
      Ok([e] + rest)
  }

  /** The outcome of entry `i`: a mapping entry is built under its key, a
      sequence item without one. */
  function EntryOutcome(level: Value, levelKey: Option<string>, i: nat): (r: Result<Option<Element>>)
    requires IsLevel(level) && i < Width(level)
    decreases level, 0, 0
  {
    ProcessLevelElement(KeyAt(level, i), ChildAt(level, i), levelKey)
  }

  /** A reference with the single key of the given type and value. */
  function SingleKeyReference(keyType: KeyType, value: string): (r: Reference)
    ensures |r.keys| == 1 && r.keys[0].keyType == keyType && r.keys[0].value == value
  {
    ExternalReference([Key(keyType, value)])
  }

  /** `convert_to_submodel`: the facts mapping is the top level, built with an
      empty prefix; a given parent becomes a reference to an administration
      shell and a given semantic id a reference to a concept description. */
  function ConvertToSubmodel(smId: string, facts: seq<Entry>, parent: Option<string>, semantic: Option<string>)
    : (r: Result<Submodel>)
    ensures r.Ok? <==> ProcessLevel(Mapping(facts), Some("")).Ok?
    ensures r.Ok? ==> r.value.id == smId
    ensures r.Ok? ==> (r.value.parent.Some? <==> parent.Some?)
    ensures r.Ok? && parent.Some? ==>
              var keys := r.value.parent.value.keys;
              |keys| == 1 && keys[0].keyType == AssetAdministrationShell && keys[0].value == parent.value
    ensures r.Ok? ==> (r.value.semanticId.Some? <==> semantic.Some?)
    ensures r.Ok? && semantic.Some? ==>
              var keys := r.value.semanticId.value.keys;
              |keys| == 1 && keys[0].keyType == ConceptDescription && keys[0].value == semantic.value
  {
    var parentRef := if parent.Some? then Some(SingleKeyReference(AssetAdministrationShell, parent.value)) else None;
    var semanticRef := if semantic.Some? then Some(SingleKeyReference(ConceptDescription, semantic.value)) else None;
    var elements :- ProcessLevel(Mapping(facts), Some(""));
    Ok(Submodel(smId, parentRef, semanticRef, elements))
  }

  /** `built` lists the outcomes of entries `i..` of the level, in order. */
  ghost predicate Positional(level: Value, levelKey: Option<string>, i: nat, built: seq<Option<Element>>)
    requires IsLevel(level) && i <= Width(level)
  {
    && |built| == Width(level) - i
    && forall j :: i <= j < Width(level) ==> EntryOutcome(level, levelKey, j) == Ok(built[j - i])
  }

  /** Entry outcomes line up with the level's entries. */
  lemma {:induction false} BuildEntriesPositional(level: Value, levelKey: Option<string>, i: nat)
    requires IsLevel(level) && i <= Width(level)
    requires BuildEntries(level, levelKey, i).Ok?
    ensures Positional(level, levelKey, i, BuildEntries(level, levelKey, i).value)
    decreases Width(level) - i
  {
    if i < Width(level) {
      BuildEntriesStep(level, levelKey, i);
      BuildEntriesPositional(level, levelKey, i + 1);
      PositionalCons(level, levelKey, i, EntryOutcome(level, levelKey, i).value, BuildEntries(level, levelKey, i + 1).value);
    }
  }

  lemma PositionalCons(level: Value, levelKey: Option<string>, i: nat, e: Option<Element>, tail: seq<Option<Element>>)
    requires IsLevel(level) && i < Width(level)
    requires EntryOutcome(level, levelKey, i) == Ok(e) && Positional(level, levelKey, i + 1, tail)
    ensures Positional(level, levelKey, i, [e] + tail)
  {
    var all := [e] + tail;
    forall j | i < j < Width(level) ensures EntryOutcome(level, levelKey, j) == Ok(all[j - i]) {
      assert all[j - i] == tail[j - (i + 1)];
    }
  }

  /** The outcome of entry `j` of a level that built. */
  lemma EntryAt(level: Value, levelKey: Option<string>, j: nat)
    requires IsLevel(level) && j < Width(level)
    requires BuildEntries(level, levelKey, 0).Ok?
    ensures |BuildEntries(level, levelKey, 0).value| == Width(level)
    ensures ProcessLevelElement(KeyAt(level, j), ChildAt(level, j), levelKey)
              == Ok(BuildEntries(level, levelKey, 0).value[j])
  {
    BuildEntriesPositional(level, levelKey, 0);
    assert EntryOutcome(level, levelKey, j) == Ok(BuildEntries(level, levelKey, 0).value[j - 0]);
  }

  /** One step of `BuildEntries`: entry `i`'s outcome, then the rest. */
  lemma BuildEntriesStep(level: Value, levelKey: Option<string>, i: nat)
    requires IsLevel(level) && i < Width(level)
    requires BuildEntries(level, levelKey, i).Ok?
    ensures BuildEntries(level, levelKey, i + 1).Ok?
    ensures EntryOutcome(level, levelKey, i).Ok?
    ensures BuildEntries(level, levelKey, i).value
            == [EntryOutcome(level, levelKey, i).value] + BuildEntries(level, levelKey, i + 1).value
  {
  }

  lemma MappingEntryOutcome(es: seq<Entry>, levelKey: Option<string>, i: nat, outcome: Option<Element>)
    requires i < |es|
    requires ProcessLevelElement(KeyAt(Mapping(es), i), ChildAt(Mapping(es), i), levelKey) == Ok(outcome)
    ensures MappingEntryBuilt(es[i], levelKey, outcome)
  {
    assert KeyAt(Mapping(es), i) == Some(es[i].key) && ChildAt(Mapping(es), i) == es[i].value;
  }

  lemma SequenceEntryOutcome(items: seq<Value>, levelKey: Option<string>, i: nat, outcome: Option<Element>)
    requires i < |items|
    requires ProcessLevelElement(KeyAt(Sequence(items), i), ChildAt(Sequence(items), i), levelKey) == Ok(outcome)
    ensures SequenceEntryBuilt(items[i], outcome)
  {
    assert KeyAt(Sequence(items), i) == None && ChildAt(Sequence(items), i) == items[i];
  }

  /** A mapping level: distinct property ids, exactly the kept scalars'
      normalised keys, the first scalar per id kept and later ones ignored,
      one container per mapping or sequence entry. */
  lemma MappingLevel(es: seq<Entry>, levelKey: Option<string>)
    requires ProcessLevel(Mapping(es), levelKey).Ok?
    ensures var r := ProcessLevel(Mapping(es), levelKey).value;
      && DistinctPropertyIds(r)
      && PropertyIds(r) == ScalarIds(es, levelKey)
      && |Properties(r)| == |ScalarIds(es, levelKey)|
      && |Containers(r)| == |ContainerEntries(Mapping(es))|
      && (forall p :: p in r && p.Property? ==>
            exists i :: FirstScalarWithId(es, levelKey, i) && p == ScalarProperty(es, levelKey, i))
      && (forall i :: FirstScalarWithId(es, levelKey, i) ==> ScalarProperty(es, levelKey, i) in r)
  {
    MappingOutcomes(es, levelKey);
    MappingLevelFacts(es, levelKey, BuildEntries(Mapping(es), levelKey, 0).value);
  }

  lemma MappingOutcomes(es: seq<Entry>, levelKey: Option<string>)
    requires BuildEntries(Mapping(es), levelKey, 0).Ok?
    ensures MappingBuilt(es, levelKey, BuildEntries(Mapping(es), levelKey, 0).value)
  {
    var level := Mapping(es);
    BuildEntriesPositional(level, levelKey, 0);
    var built := BuildEntries(level, levelKey, 0).value;
    forall i | 0 <= i < |es| ensures MappingEntryBuilt(es[i], levelKey, built[i]) {
      EntryAt(level, levelKey, i);
      MappingEntryOutcome(es, levelKey, i, built[i]);
    }
  }

  /** A sequence level: one element per entry, in entry order, none with an
      id; a scalar entry gives the property of its own value kind. */
  lemma SequenceLevel(items: seq<Value>, levelKey: Option<string>)
    requires ProcessLevel(Sequence(items), levelKey).Ok?
    ensures var r := ProcessLevel(Sequence(items), levelKey).value;
      && |r| == |items|
      && forall i :: 0 <= i < |items| ==>
           && r[i].id.None?
           && (items[i].Leaf? ==> r[i] == Property(None, Classify(items[i].scalar), items[i].scalar))
           && (items[i].Mapping? ==> r[i].Collection?)
           && (items[i].Sequence? ==> r[i].List?)
  {
    SequenceOutcomesBuilt(items, levelKey);
    SequenceLevelUnkeyed(items, BuildEntries(Sequence(items), levelKey, 0).value);
  }

  lemma SequenceOutcomesBuilt(items: seq<Value>, levelKey: Option<string>)
    requires BuildEntries(Sequence(items), levelKey, 0).Ok?
    ensures SequenceBuilt(items, BuildEntries(Sequence(items), levelKey, 0).value)
  {
    var level := Sequence(items);
    BuildEntriesPositional(level, levelKey, 0);
    var built := BuildEntries(level, levelKey, 0).value;
    forall i | 0 <= i < |items| ensures SequenceEntryBuilt(items[i], built[i]) {
      EntryAt(level, levelKey, i);
      SequenceEntryOutcome(items, levelKey, i, built[i]);
    }
  }

  /** A sequence entry becomes a list with exactly one child per item, whether
      or not its children had to be degraded. */
  lemma ListKeepsEveryItem(key: Option<string>, items: seq<Value>, levelKey: Option<string>)
    requires ProcessLevelElement(key, Sequence(items), levelKey).Ok?
    ensures |ProcessLevelElement(key, Sequence(items), levelKey).value.value.children| == |items|
  {
    assert ProcessList(key, Sequence(items)).Ok?;
    assert ProcessLevel(Sequence(items), key).Ok?;
    SequenceLevel(items, key);
  }

  /** An empty sequence becomes an empty list declaring String properties. */
  lemma EmptyListIsStringList(key: string, levelKey: Option<string>)
    requires ValidIdShort(key)
    ensures ProcessLevelElement(Some(key), Sequence([]), levelKey)
              == Ok(Some(List(Some(key), [], OfProperty(XsString))))
  {
    assert BuildEntries(Sequence([]), Some(key), 0) == Ok([]);
  }

  /** A mapping entry whose value is a mapping becomes a collection named by
      its key normalised without prefix (a key that normalises to nothing is
      rejected), and its properties are named with the raw key as prefix. */
  lemma CollectionIdNormalised(key: string, es: seq<Entry>, levelKey: Option<string>)
    ensures Normalize(key, "") == "" ==> ProcessLevelElement(Some(key), Mapping(es), levelKey).Err?
    ensures ProcessLevelElement(Some(key), Mapping(es), levelKey).Ok? ==>
              var c := ProcessLevelElement(Some(key), Mapping(es), levelKey).value.value;
              && ProcessLevel(Mapping(es), Some(key)).Ok?
              && c == Collection(Some(Normalize(key, "")), ProcessLevel(Mapping(es), Some(key)).value)
              && PropertyIds(c.children) == ScalarIds(es, Some(key))
  {
    if ProcessLevelElement(Some(key), Mapping(es), levelKey).Ok? {
      assert ProcessDict(Some(key), Mapping(es)).Ok?;
      assert ProcessLevel(Mapping(es), Some(key)).Ok?;
      MappingLevel(es, Some(key));
    }
  }

  /** The top level holds one property per distinct kept normalised key and
      one container per mapping or sequence fact. */
  lemma TopLevelCount(smId: string, facts: seq<Entry>, parent: Option<string>, semantic: Option<string>)
    requires ConvertToSubmodel(smId, facts, parent, semantic).Ok?
    ensures var els := ConvertToSubmodel(smId, facts, parent, semantic).value.elements;
            && PropertyIds(els) == ScalarIds(facts, None)
            && |els| == |ScalarIds(facts, None)| + |ContainerEntries(Mapping(facts))|
  {
    MappingLevel(facts, Some(""));
    ScalarIdsEmptyPrefix(facts);
    PropertiesAndContainers(ProcessLevel(Mapping(facts), Some("")).value);
  }

  /** A facts mapping whose keys are all legal idShorts converts into exactly
      one top-level element per fact. */
  lemma OneTopLevelElementPerFact(smId: string, facts: seq<Entry>, parent: Option<string>, semantic: Option<string>)
    requires ConvertToSubmodel(smId, facts, parent, semantic).Ok?
    requires DistinctKeys(facts) && ValidKeys(facts)
    ensures |ConvertToSubmodel(smId, facts, parent, semantic).value.elements| == |facts|
  {
    TopLevelCount(smId, facts, parent, semantic);
    OneElementPerEntry(facts, None);
  }

  /** A level whose every entry builds, builds. */
  lemma {:induction false} EntriesSucceed(level: Value, levelKey: Option<string>, i: nat)
    requires IsLevel(level) && i <= Width(level)
    requires forall j :: i <= j < Width(level) ==> EntryOutcome(level, levelKey, j).Ok?
    ensures BuildEntries(level, levelKey, i).Ok?
    decreases Width(level) - i
  {
    if i < Width(level) {
      EntriesSucceed(level, levelKey, i + 1);
      BuildEntriesCons(level, levelKey, i);
    }
  }

  lemma BuildEntriesCons(level: Value, levelKey: Option<string>, i: nat)
    requires IsLevel(level) && i < Width(level)
    requires EntryOutcome(level, levelKey, i).Ok?
    requires BuildEntries(level, levelKey, i + 1).Ok?
    ensures BuildEntries(level, levelKey, i).Ok?
  {
  }

  /** A mapping level with a single entry that builds to `x` holds exactly `x`. */
  lemma SingleEntryLevel(es: seq<Entry>, levelKey: Option<string>, x: Element)
    requires |es| == 1 && ProcessLevelElement(Some(es[0].key), es[0].value, levelKey) == Ok(Some(x))
    ensures ProcessLevel(Mapping(es), levelKey) == Ok([x])
  {
    assert BuildEntries(Mapping(es), levelKey, 1) == Ok([]);
    assert [Some(x)] + [] == [Some(x)];
    assert BuildEntries(Mapping(es), levelKey, 0) == Ok([Some(x)]);
    assert Collect([Some(x)], true) == [x] by {
      assert [Some(x)][..0] == [];
    }
  }

  /** A mapping under a legal key whose single entry builds to `x` becomes the
      collection named by that key holding just `x`. */
  lemma NestedCollection(key: string, es: seq<Entry>, levelKey: Option<string>, x: Element)
    requires ValidIdShort(key)
    requires |es| == 1 && ProcessLevelElement(Some(es[0].key), es[0].value, Some(key)) == Ok(Some(x))
    ensures ProcessLevelElement(Some(key), Mapping(es), levelKey) == Ok(Some(Collection(Some(key), [x])))
  {
    SingleEntryLevel(es, Some(key), x);
    NormalizeKeepsValid(key, "");
    assert UniqueIds([x]);
  }

  /** A sequence level whose every item builds to a known element holds
      exactly those elements, in item order. */
  lemma SequenceOutcomes(items: seq<Value>, levelKey: Option<string>, outs: seq<Element>)
    requires |outs| == |items|
    requires forall j :: 0 <= j < |items| ==> ProcessLevelElement(None, items[j], levelKey) == Ok(Some(outs[j]))
    ensures ProcessLevel(Sequence(items), levelKey) == Ok(outs)
  {
    var level := Sequence(items);
    forall j | 0 <= j < |items| ensures EntryOutcome(level, levelKey, j) == Ok(Some(outs[j])) {
      assert KeyAt(level, j) == None && ChildAt(level, j) == items[j];
    }
    EntriesSucceed(level, levelKey, 0);
    BuildEntriesPositional(level, levelKey, 0);
    var built := BuildEntries(level, levelKey, 0).value;
    forall j | 0 <= j < |built| ensures built[j] == Some(outs[j]) {
      EntryAt(level, levelKey, j);
    }
    CollectUnkeyed(built);
    SomesAllPresent(built);
    assert Somes(built) == outs;
  }

  /** A sequence of mappings under a legal key becomes a list of collections,
      one per mapping, in order. */
  lemma ListOfMappings(key: string, items: seq<Value>, levelKey: Option<string>)
    requires ValidIdShort(key) && |items| > 0
    requires forall i :: 0 <= i < |items| ==> items[i].Mapping? && ProcessDict(None, items[i]).Ok?
    ensures ProcessLevelElement(Some(key), Sequence(items), levelKey).Ok?
    ensures var l := ProcessLevelElement(Some(key), Sequence(items), levelKey).value.value;
            && l.declared == OfCollection
            && |l.children| == |items|
            && forall i :: 0 <= i < |items| ==> l.children[i] == ProcessDict(None, items[i]).value
  {
    var outs := seq(|items|, j requires 0 <= j < |items| => ProcessDict(None, items[j]).value);
    SequenceOutcomes(items, Some(key), outs);
    assert AllConform(outs, OfCollection);
    assert outs[0].Collection?;
  }

  /** A sequence level of scalars holds one id-less property per scalar, in order. */
  lemma ScalarSequenceLevel(items: seq<Value>, levelKey: Option<string>)
    requires forall i :: 0 <= i < |items| ==> items[i].Leaf?
    ensures ProcessLevel(Sequence(items), levelKey).Ok?
    ensures var r := ProcessLevel(Sequence(items), levelKey).value;
            && |r| == |items|
            && forall i :: 0 <= i < |items| ==> r[i] == Property(None, Classify(items[i].scalar), items[i].scalar)
  {
    var level := Sequence(items);
    forall j | 0 <= j < |items| ensures EntryOutcome(level, levelKey, j).Ok? {
      assert ChildAt(level, j) == items[j];
    }
    EntriesSucceed(level, levelKey, 0);
    SequenceLevel(items, levelKey);
  }

  /** A non-empty list of properties under a legal id: typed by the first
      child when all share its value kind, degraded otherwise. */
  lemma PropertyListAssembly(key: string, r: seq<Element>)
    requires ValidIdShort(key) && |r| > 0 && AllProperties(r)
    ensures AssembleList(Some(key), r).Ok?
    ensures var l := AssembleList(Some(key), r).value;
            && ((forall i :: 0 <= i < |r| ==> r[i].kind == r[0].kind) ==>
                  l == List(Some(key), r, OfProperty(r[0].kind)))
            && ((exists i :: 0 <= i < |r| && r[i].kind != r[0].kind) ==>
                  l == List(Some(key), ConvertElementsToString(r), OfProperty(XsString)))
  {
    var k := r[0].kind;
    PropertiesNeverForeign(r, k);
    FirstOffenceCases(r, OfProperty(k));
    if exists i :: 0 <= i < |r| && r[i].kind != k {
      var i :| 0 <= i < |r| && r[i].kind != k;
      assert !Conforms(r[i], OfProperty(k));
    }
  }

  /** A non-empty sequence of scalars under a legal key keeps one child per
      scalar: as they are when all share a value kind, degraded to the String
      text of each value when they do not. */
  lemma ScalarListKept(key: string, items: seq<Value>, levelKey: Option<string>)
    requires ValidIdShort(key) && |items| > 0
    requires forall i :: 0 <= i < |items| ==> items[i].Leaf?
    ensures ProcessLevelElement(Some(key), Sequence(items), levelKey).Ok?
    ensures var l := ProcessLevelElement(Some(key), Sequence(items), levelKey).value.value;
            var k := Classify(items[0].scalar);
            && |l.children| == |items|
            && ((forall i :: 0 <= i < |items| ==> Classify(items[i].scalar) == k) ==>
                  && l.declared == OfProperty(k)
                  && forall i :: 0 <= i < |items| ==> l.children[i] == Property(None, k, items[i].scalar))
            && ((exists i :: 0 <= i < |items| && Classify(items[i].scalar) != k) ==>
                  && l.declared == OfProperty(XsString)
                  && forall i :: 0 <= i < |items| ==>
                       l.children[i] == Property(None, XsString, Str(Display(items[i].scalar))))
  {
    ScalarSequenceLevel(items, Some(key));
    var r := ProcessLevel(Sequence(items), Some(key)).value;
    PropertyListAssembly(key, r);
    assert ProcessLevelElement(Some(key), Sequence(items), levelKey) == Ok(Some(AssembleList(Some(key), r).value));
  }

  /** Scalar entries never fail, so a level of scalars always builds. */
  lemma {:induction false} ScalarEntriesSucceed(level: Value, levelKey: Option<string>, i: nat)
    requires IsLevel(level) && i <= Width(level)
    requires forall j :: 0 <= j < Width(level) ==> ChildAt(level, j).Leaf?
    ensures BuildEntries(level, levelKey, i).Ok?
    decreases Width(level) - i
  {
    if i < Width(level) {
      ScalarEntriesSucceed(level, levelKey, i + 1);
      assert ChildAt(level, i).Leaf?;
      assert EntryOutcome(level, levelKey, i).Ok?;
      BuildEntriesCons(level, levelKey, i);
    }
  }

  /** A mapping level of scalars under distinct legal keys keeps every entry
      as a property. */
  lemma FlatMappingLevel(es: seq<Entry>, levelKey: Option<string>)
    requires forall i :: 0 <= i < |es| ==> es[i].value.Leaf?
    requires DistinctKeys(es) && ValidKeys(es)
    ensures ProcessLevel(Mapping(es), levelKey).Ok?
    ensures var r := ProcessLevel(Mapping(es), levelKey).value;
            && |r| == |es|
            && (forall e :: e in r ==> e.Property?)
            && UniqueIds(r)
  {
    var level := Mapping(es);
    assert forall j :: 0 <= j < Width(level) ==> ChildAt(level, j) == es[j].value;
    ScalarEntriesSucceed(level, levelKey, 0);
    var r := ProcessLevel(level, levelKey).value;
    MappingLevel(es, levelKey);
    assert ContainerEntries(level) == {};
    NoContainers(r);
    OneElementPerEntry(es, levelKey);
    DistinctPropertiesUnique(r);
  }

  /** A mapping of scalars under distinct legal keys becomes a collection
      holding one property per entry, provided its own id is legal. */
  lemma FlatMappingConverts(key: Option<string>, es: seq<Entry>)
    requires forall i :: 0 <= i < |es| ==> es[i].value.Leaf?
    requires DistinctKeys(es) && ValidKeys(es) && IdOk(GetIdShort(key, None))
    ensures ProcessDict(key, Mapping(es)).Ok?
    ensures var c := ProcessDict(key, Mapping(es)).value;
            && |c.children| == |es|
            && (forall e :: e in c.children ==> e.Property?)
  {
    FlatMappingLevel(es, key);
  }

  /** Degrading two arrangements of the same children gives two arrangements
      of the same String properties. */
  lemma StringifyPermutation(a: seq<Element>, b: seq<Element>)
    requires multiset(a) == multiset(b)
    ensures multiset(ConvertElementsToString(a)) == multiset(ConvertElementsToString(b))
  {
    assert ConvertElementsToString(a) == MapSeq(Degraded, a);
    assert ConvertElementsToString(b) == MapSeq(Degraded, b);
    MapPermutation(Degraded, a, b);
  }

  predicate AllProperties(es: seq<Element>) {
    forall i :: 0 <= i < |es| ==> es[i].Property?
  }

  /** A list of properties never meets a child of the wrong element type. */
  lemma PropertiesNeverForeign(es: seq<Element>, k: ValueKind)
    requires AllProperties(es)
    ensures !ForeignFirst(es, OfProperty(k))
  {
  }

  /** Python's set iteration order does not matter for a list of properties:
      any arrangement of the same children gives a list of the same declared
      value kind holding the same children, degraded or not. */
  lemma PropertyListOrderFree(id: Option<string>, a: seq<Element>, b: seq<Element>)
    requires |a| > 0 && IdOk(id) && AllProperties(a) && multiset(a) == multiset(b)
    ensures CreateSubmodelElementList(id, a).Ok? && CreateSubmodelElementList(id, b).Ok?
    ensures var ra, rb := CreateSubmodelElementList(id, a).value, CreateSubmodelElementList(id, b).value;
            ra.declared == rb.declared && multiset(ra.children) == multiset(rb.children)
  {
    assert |b| == |multiset(b)| == |a|;
    forall i | 0 <= i < |b| ensures b[i].Property? && b[i] in multiset(a) {
      assert b[i] in multiset(b);
    }
    PropertiesNeverForeign(a, a[0].kind);
    PropertiesNeverForeign(b, b[0].kind);
    FirstOffenceCases(a, OfProperty(a[0].kind));
    FirstOffenceCases(b, OfProperty(b[0].kind));
    if AllConform(a, OfProperty(a[0].kind)) {
      assert b[0] in multiset(a);
      assert AllConform(b, OfProperty(b[0].kind)) by {
        forall i | 0 <= i < |b| ensures Conforms(b[i], OfProperty(b[0].kind)) {
          assert b[i] in multiset(a);
        }
      }
    } else {
      assert !AllConform(b, OfProperty(b[0].kind)) by {
        if AllConform(b, OfProperty(b[0].kind)) {
          forall i | 0 <= i < |a| ensures Conforms(a[i], OfProperty(a[0].kind)) {
            assert a[i] in multiset(b) && a[0] in multiset(b);
          }
          assert false;
        }
      }
      StringifyPermutation(a, b);
    }
  }

  /** With children of both element types, the outcome depends on the order
      the set yields them in: a kind mismatch met first degrades the list,
      a collection met first rejects it. */
  lemma MixedListDependsOnOrder()
    ensures var s, n, c := Property(None, XsString, Str("a")), Property(None, XsInteger, Int(1)), Collection(None, []);
            && CreateSubmodelElementList(Some("l"), [s, n, c]).Ok?
            && CreateSubmodelElementList(Some("l"), [s, c, n]) == Err(TypeMismatch)
  {
    var s, n, c := Property(None, XsString, Str("a")), Property(None, XsInteger, Int(1)), Collection(None, []);
    var d := OfProperty(XsString);
    assert ValidIdShort("l") by { assert IsLetter('l'); }
    assert MismatchFirst([s, n, c], d) by {
      assert ConformsBefore([s, n, c], d, 1);
    }
    assert ForeignFirst([s, c, n], d) by {
      assert ConformsBefore([s, c, n], d, 1);
    }
  }
}
