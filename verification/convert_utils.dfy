/** The shared-utility converter (`plugins/module_utils/convert.py`): mapping
    keys become collection ids unchanged, every property is gathered as an
    id-keyed set element (so the id-less scalars of a list collapse), and a
    list whose children disagree on their value kind is an error. */
module ConvertUtils {
  import opened Common
  import opened IdShort
  import opened Facts
  import opened Elements
  import opened ElementSet
  import opened Leaves
  import opened Levels

  /** Dispatches one entry on the shape of its value. */
  function ProcessLevelElement(key: Option<string>, v: Value, levelKey: Option<string>): (r: Result<Option<Element>>)
    ensures v.Leaf? ==> r == Ok(ProcessProperty(key, v.scalar, levelKey))
    ensures r.Ok? && v.Mapping? ==> r.value.Some? && r.value.value.Collection? && r.value.value.id == key
    ensures r.Ok? && v.Sequence? ==> r.value.Some? && r.value.value.List? && r.value.value.id == key
    decreases v, 4, 0
  {
    match v
    case Mapping(_) =>
      var c :- ProcessDict(key, v);
      Ok(Some(c))
    case Sequence(_) =>
      var l :- ProcessList(key, v);
      Ok(Some(l))
    case Leaf(s) => Ok(ProcessProperty(key, s, levelKey))
  }

  /** A mapping becomes a collection whose id is the raw key; its entries are
      built with that raw key as their fallback prefix. */
  function ProcessDict(key: Option<string>, v: Value): (r: Result<Element>)
    requires v.Mapping?
    ensures r.Ok? ==> r.value.Collection? && r.value.id == key
    decreases v, 3, 0
  {
    var children :- ProcessLevel(v, key);
    MakeCollection(key, children)
  }

  /** The list rules: an empty list declares String properties, a list led by
      a collection declares collections, and any other list declares the
      element type and value kind of its first child. */
  function AssembleList(key: Option<string>, children: seq<Element>): (r: Result<Element>)
    ensures r.Ok? ==> r.value.List? && r.value.id == key && r.value.children == children
    ensures r.Ok? ==> AllConform(children, r.value.declared)
    ensures children == [] ==> (r.Ok? <==> IdOk(key))
    ensures children == [] && r.Ok? ==> r.value.declared == OfProperty(XsString)
    ensures |children| > 0 && children[0].Collection? ==>
              (r.Ok? <==> IdOk(key) && AllConform(children, OfCollection))
    ensures |children| > 0 && children[0].Collection? && r.Ok? ==> r.value.declared == OfCollection
    ensures |children| > 0 && children[0].Property? ==>
              (r.Ok? <==> IdOk(key) && AllConform(children, OfProperty(children[0].kind)))
    ensures |children| > 0 && children[0].Property? && r.Ok? ==>
              r.value.declared == OfProperty(children[0].kind)
    // a list led by a list has no value type to declare
    ensures |children| > 0 && children[0].List? ==> r == Err(MissingValueType)
    // properties of mixed value kinds are an error: there is no fallback here
    ensures (IdOk(key) && |children| > 0 && children[0].Property?
             && MismatchFirst(children, OfProperty(children[0].kind))) ==> r == Err(ValueTypeMismatch)
  {
    if |children| > 0 then
      if children[0].Collection? then MakeList(key, children, OfCollection)
      else if children[0].List? then Err(MissingValueType)
      else MakeList(key, children, OfProperty(children[0].kind))
    else
      MakeList(key, children, OfProperty(XsString))
  }

  /** A sequence becomes a list whose id is the raw key. */
  function ProcessList(key: Option<string>, v: Value): (r: Result<Element>)
    requires v.Sequence?
    ensures r.Ok? ==> r.value.List? && r.value.id == key
    decreases v, 3, 0
  {
    var children :- ProcessLevel(v, key);
    AssembleList(key, children)
  }

  /** Builds a level's entries in order and gathers them in the id-keyed set. */
  function ProcessLevel(level: Value, levelKey: Option<string>): (r: Result<seq<Element>>)
    requires IsLevel(level)
    decreases level, 2, 0
  {
    var built :- BuildEntries(level, levelKey, 0);
    Ok(Collect(built, true))
  }

  /** The outcomes of entries `i..` of a level; the first failing entry aborts. */
  function BuildEntries(level: Value, levelKey: Option<string>, i: nat): (r: Result<seq<Option<Element>>>)
    requires IsLevel(level) && i <= Width(level)
    decreases level, 1, Width(level) - i
  {
    if i == Width(level) then Ok([])
    else
      var e :- EntryOutcome(level, levelKey, i);
      var rest :- BuildEntries(level, levelKey, i + 1);
      Ok([e] + rest)
  }

  /** The outcome of entry `i`: a mapping entry is built under its key, a
      sequence item without one. */
  function EntryOutcome(level: Value, levelKey: Option<string>, i: nat): (r: Result<Option<Element>>)
    requires IsLevel(level) && i < Width(level)
    decreases level, 0, 0
  {
    ProcessLevelElement(KeyAt(level, i), ChildAt(level, i), levelKey)
  }

  /** `convert_to_submodel`: the facts mapping is the top level, built with an
      empty prefix; no parent or semantic reference is set. */
  function ConvertToSubmodel(smId: string, facts: seq<Entry>): (r: Result<Submodel>)
    ensures r.Ok? <==> ProcessLevel(Mapping(facts), Some("")).Ok?
    ensures r.Ok? ==> r.value.id == smId && r.value.parent.None? && r.value.semanticId.None?
  {
    var elements :- ProcessLevel(Mapping(facts), Some(""));
    Ok(Submodel(smId, None, None, elements))
  }

  /** The top level is named with an empty prefix, which is the same as no prefix. */
  lemma TopLevelIds(smId: string, facts: seq<Entry>)
    requires ConvertToSubmodel(smId, facts).Ok?
    ensures PropertyIds(ConvertToSubmodel(smId, facts).value.elements) == ScalarIds(facts, None)
  {
    MappingLevel(facts, Some(""));
    ScalarIdsEmptyPrefix(facts);
  }

  /** `built` lists the outcomes of entries `i..` of the level, in order. */
  ghost predicate Positional(level: Value, levelKey: Option<string>, i: nat, built: seq<Option<Element>>)
    requires IsLevel(level) && i <= Width(level)
  {
    && |built| == Width(level) - i
    && forall j :: i <= j < Width(level) ==> EntryOutcome(level, levelKey, j) == Ok(built[j - i])
  }

  /** Entry outcomes line up with the level's entries. */
  lemma {:induction false} BuildEntriesPositional(level: Value, levelKey: Option<string>, i: nat)
    requires IsLevel(level) && i <= Width(level)
    requires BuildEntries(level, levelKey, i).Ok?
    ensures Positional(level, levelKey, i, BuildEntries(level, levelKey, i).value)
    decreases Width(level) - i
  {
    if i < Width(level) {
      BuildEntriesStep(level, levelKey, i);
      BuildEntriesPositional(level, levelKey, i + 1);
      PositionalCons(level, levelKey, i, EntryOutcome(level, levelKey, i).value, BuildEntries(level, levelKey, i + 1).value);
    }
  }

  lemma PositionalCons(level: Value, levelKey: Option<string>, i: nat, e: Option<Element>, tail: seq<Option<Element>>)
    requires IsLevel(level) && i < Width(level)
    requires EntryOutcome(level, levelKey, i) == Ok(e) && Positional(level, levelKey, i + 1, tail)
    ensures Positional(level, levelKey, i, [e] + tail)
  {
    var all := [e] + tail;
    forall j | i < j < Width(level) ensures EntryOutcome(level, levelKey, j) == Ok(all[j - i]) {
      assert all[j - i] == tail[j - (i + 1)];
    }
  }

  lemma BuildEntriesCons(level: Value, levelKey: Option<string>, i: nat)
    requires IsLevel(level) && i < Width(level)
    requires EntryOutcome(level, levelKey, i).Ok?
    requires BuildEntries(level, levelKey, i + 1).Ok?
    ensures BuildEntries(level, levelKey, i).Ok?
  {
  }

  /** The outcome of entry `j` of a level that built. */
  lemma EntryAt(level: Value, levelKey: Option<string>, j: nat)
    requires IsLevel(level) && j < Width(level)
    requires BuildEntries(level, levelKey, 0).Ok?
    ensures |BuildEntries(level, levelKey, 0).value| == Width(level)
    ensures ProcessLevelElement(KeyAt(level, j), ChildAt(level, j), levelKey)
              == Ok(BuildEntries(level, levelKey, 0).value[j])
  {
    BuildEntriesPositional(level, levelKey, 0);
    assert EntryOutcome(level, levelKey, j) == Ok(BuildEntries(level, levelKey, 0).value[j - 0]);
  }

  /** One step of `BuildEntries`: entry `i`'s outcome, then the rest. */
  lemma BuildEntriesStep(level: Value, levelKey: Option<string>, i: nat)
    requires IsLevel(level) && i < Width(level)
    requires BuildEntries(level, levelKey, i).Ok?
    ensures BuildEntries(level, levelKey, i + 1).Ok?
    ensures EntryOutcome(level, levelKey, i).Ok?
    ensures BuildEntries(level, levelKey, i).value
            == [EntryOutcome(level, levelKey, i).value] + BuildEntries(level, levelKey, i + 1).value
  {
  }

  /** A mapping level: distinct property ids, exactly the kept scalars'
      normalised keys, the first scalar per id kept, one container per
      mapping or sequence entry. */
  lemma MappingLevel(es: seq<Entry>, levelKey: Option<string>)
    requires ProcessLevel(Mapping(es), levelKey).Ok?
    ensures var r := ProcessLevel(Mapping(es), levelKey).value;
      && DistinctPropertyIds(r)
      && PropertyIds(r) == ScalarIds(es, levelKey)
      && |Properties(r)| == |ScalarIds(es, levelKey)|
      && |Containers(r)| == |ContainerEntries(Mapping(es))|
      && (forall p :: p in r && p.Property? ==>
            exists i :: FirstScalarWithId(es, levelKey, i) && p == ScalarProperty(es, levelKey, i))
      && (forall i :: FirstScalarWithId(es, levelKey, i) ==> ScalarProperty(es, levelKey, i) in r)
  {
    var level := Mapping(es);
    BuildEntriesPositional(level, levelKey, 0);
    var built := BuildEntries(level, levelKey, 0).value;
    assert MappingBuilt(es, levelKey, built) by {
      forall i | 0 <= i < |es| ensures MappingEntryBuilt(es[i], levelKey, built[i]) {
        EntryAt(level, levelKey, i);
        assert KeyAt(level, i) == Some(es[i].key) && ChildAt(level, i) == es[i].value;
        assert ProcessLevelElement(Some(es[i].key), es[i].value, levelKey) == Ok(built[i]);
      }
    }
    MappingLevelFacts(es, levelKey, built);
  }

  /** A sequence level: all scalar entries collapse into the one property of
      the first scalar; mappings and sequences each keep their container. */
  lemma SequenceLevel(items: seq<Value>, levelKey: Option<string>)
    requires ProcessLevel(Sequence(items), levelKey).Ok?
    ensures var r := ProcessLevel(Sequence(items), levelKey).value;
      && |Containers(r)| == |ContainerEntries(Sequence(items))|
      && (!HasLeaf(items) ==> Properties(r) == [])
      && (HasLeaf(items) ==>
            var first := items[FirstLeaf(items)].scalar;
            Properties(r) == [Property(None, Classify(first), first)])
  {
    var level := Sequence(items);
    BuildEntriesPositional(level, levelKey, 0);
    var built := BuildEntries(level, levelKey, 0).value;
    assert SequenceBuilt(items, built) by {
      forall i | 0 <= i < |items| ensures SequenceEntryBuilt(items[i], built[i]) {
        EntryAt(level, levelKey, i);
        assert KeyAt(level, i) == None && ChildAt(level, i) == items[i];
        assert ProcessLevelElement(None, items[i], levelKey) == Ok(built[i]);
      }
    }
    SequenceLevelKeyed(items, built);
  }

  /** A mapping entry whose value is a mapping becomes a collection whose id is
      the raw key, which must already be a legal idShort, and whose properties
      are named with that raw key as fallback prefix. */
  lemma CollectionKeepsRawKey(key: string, es: seq<Entry>, levelKey: Option<string>)
    ensures !ValidIdShort(key) ==> ProcessLevelElement(Some(key), Mapping(es), levelKey).Err?
    ensures ProcessLevelElement(Some(key), Mapping(es), levelKey).Ok? ==>
              var c := ProcessLevelElement(Some(key), Mapping(es), levelKey).value.value;
              && ProcessLevel(Mapping(es), Some(key)).Ok?
              && c == Collection(Some(key), ProcessLevel(Mapping(es), Some(key)).value)
              && PropertyIds(c.children) == ScalarIds(es, Some(key))
  {
    if ProcessLevelElement(Some(key), Mapping(es), levelKey).Ok? {
      assert ProcessDict(Some(key), Mapping(es)).Ok?;
      assert ProcessLevel(Mapping(es), Some(key)).Ok?;
      MappingLevel(es, Some(key));
    }
  }

  /** Scalar entries never fail, so a mapping of scalars always converts. */
  lemma {:induction false} ScalarEntriesSucceed(level: Value, levelKey: Option<string>, i: nat)
    requires IsLevel(level) && i <= Width(level)
    requires forall j :: 0 <= j < Width(level) ==> ChildAt(level, j).Leaf?
    ensures BuildEntries(level, levelKey, i).Ok?
    decreases Width(level) - i
  {
    if i < Width(level) {
      ScalarEntriesSucceed(level, levelKey, i + 1);
      assert ChildAt(level, i).Leaf?;
      assert EntryOutcome(level, levelKey, i).Ok?;
      BuildEntriesCons(level, levelKey, i);
    }
  }

  /** Facts with only scalar values give one property per distinct kept
      normalised key, and nothing else. */
  lemma FlatFactsCount(smId: string, facts: seq<Entry>)
    requires forall i :: 0 <= i < |facts| ==> facts[i].value.Leaf?
    ensures ConvertToSubmodel(smId, facts).Ok?
    ensures var els := ConvertToSubmodel(smId, facts).value.elements;
            && (forall e :: e in els ==> e.Property?)
            && |els| == |ScalarIds(facts, None)|
  {
    var level := Mapping(facts);
    assert forall j :: 0 <= j < Width(level) ==> ChildAt(level, j) == facts[j].value;
    ScalarEntriesSucceed(level, Some(""), 0);
    var els := ProcessLevel(level, Some("")).value;
    MappingLevel(facts, Some(""));
    assert ContainerEntries(level) == {};
    NoContainers(els);
    ScalarIdsEmptyPrefix(facts);
  }

  /** Facts with only scalar values under distinct legal keys give exactly one
      property per fact, named by its key and typed by its value. */
  lemma FlatFactsConvert(smId: string, facts: seq<Entry>)
    requires forall i :: 0 <= i < |facts| ==> facts[i].value.Leaf?
    requires DistinctKeys(facts) && ValidKeys(facts)
    ensures ConvertToSubmodel(smId, facts).Ok?
    ensures var els := ConvertToSubmodel(smId, facts).value.elements;
            && |els| == |facts|
            && forall e :: e in els <==> exists i :: 0 <= i < |facts| && e == FactProperty(facts[i])
  {
    FlatFactsCount(smId, facts);
    ScalarIdsEmptyPrefix(facts);
    OneElementPerEntry(facts, None);
    assert ContainerEntries(Mapping(facts)) == {};
    MappingLevel(facts, Some(""));
    ValidKeysFirstScalars(facts, Some(""));
  }

  /** A non-empty sequence of scalars under a legal key becomes a list holding
      only the property of its first scalar: every scalar of a list has no id,
      so the id-keyed set keeps the first and ignores the rest. */
  lemma ScalarListCollapses(key: string, items: seq<Value>, levelKey: Option<string>)
    requires ValidIdShort(key) && |items| > 0
    requires forall i :: 0 <= i < |items| ==> items[i].Leaf?
    ensures var p := Property(None, Classify(items[0].scalar), items[0].scalar);
            ProcessLevelElement(Some(key), Sequence(items), levelKey)
              == Ok(Some(List(Some(key), [p], OfProperty(p.kind))))
  {
    var level := Sequence(items);
    var p := Property(None, Classify(items[0].scalar), items[0].scalar);
    assert forall j :: 0 <= j < Width(level) ==> ChildAt(level, j) == items[j];
    ScalarEntriesSucceed(level, Some(key), 0);
    SequenceLevel(items, Some(key));
    var r := ProcessLevel(level, Some(key)).value;
    assert ContainerEntries(level) == {};
    assert HasLeaf(items) && FirstLeaf(items) == 0;
    NoContainers(r);
    PropertiesAll(r);
    assert r == [p];
    assert AllConform(r, OfProperty(p.kind));
  }

  /** With at most one property among the children, no child can disagree
      with the first one on its value kind. */
  lemma AssembleListNoMismatch(key: Option<string>, children: seq<Element>)
    requires |Properties(children)| <= 1
    ensures AssembleList(key, children) != Err(ValueTypeMismatch)
  {
    if |children| > 0 && children[0].Property? && IdOk(key) {
      var d := OfProperty(children[0].kind);
      assert children[0] in Properties(children);
      forall i | 0 <= i < |children| && children[i].Property? ensures Conforms(children[i], d) {
        assert children[i] in Properties(children);
      }
      assert !MismatchFirst(children, d);
    }
  }

  /** Entries of a level never fail on a value-kind mismatch. */
  lemma {:induction false} LevelNoMismatch(level: Value, levelKey: Option<string>, i: nat)
    requires IsLevel(level) && i <= Width(level)
    ensures BuildEntries(level, levelKey, i) != Err(ValueTypeMismatch)
    decreases level, 1, Width(level) - i
  {
    if i < Width(level) {
      match level {
        case Mapping(es) => ElementNoMismatch(Some(es[i].key), es[i].value, levelKey);
        case Sequence(vs) => ElementNoMismatch(None, vs[i], levelKey);
      }
      LevelNoMismatch(level, levelKey, i + 1);
    }
  }

  /** No entry fails on a value-kind mismatch: the scalars of a list have
      already collapsed into at most one property when the list is checked. */
  lemma {:induction false} ElementNoMismatch(key: Option<string>, v: Value, levelKey: Option<string>)
    ensures ProcessLevelElement(key, v, levelKey) != Err(ValueTypeMismatch)
    decreases v, 4, 0
  {
    match v
    case Leaf(_) =>
    case Mapping(_) =>
      LevelNoMismatch(v, key, 0);
      assert ProcessDict(key, v) != Err(ValueTypeMismatch);
    case Sequence(items) =>
      LevelNoMismatch(v, key, 0);
      if ProcessLevel(v, key).Ok? {
        SequenceLevel(items, key);
        AssembleListNoMismatch(key, ProcessLevel(v, key).value);
      }
  }

  /** This converter never reports a value-kind mismatch (constraint AASd-109):
      list scalars collapse before any list is checked, so its lack of a
      fallback for mixed lists is never exercised. */
  lemma NoValueKindFailure(smId: string, facts: seq<Entry>)
    ensures ConvertToSubmodel(smId, facts) != Err(ValueTypeMismatch)
  {
    LevelNoMismatch(Mapping(facts), Some(""), 0);
  }
}
