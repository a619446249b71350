/** What one level of the document (a mapping or a sequence) contributes,
    entry by entry, and what the gathered set then holds. Both converters
    build a level the same way up to the set they gather into, so these facts
    are stated once over the per-entry outcomes. */
module Levels {
  import opened Common
  import opened IdShort
  import opened Facts
  import opened Elements
  import opened ElementSet
  import opened Leaves

  predicate IsLevel(level: Value) {
    !level.Leaf?
  }

  /** The number of entries of a level. */
  function Width(level: Value): nat
    requires IsLevel(level)
  {
    if level.Mapping? then |level.entries| else |level.items|
  }

  /** The key of entry `i`: the mapping key, or none for a sequence entry. */
  function KeyAt(level: Value, i: nat): Option<string>
    requires IsLevel(level) && i < Width(level)
  {
    if level.Mapping? then Some(level.entries[i].key) else None
  }

  /** The value of entry `i`. */
  function ChildAt(level: Value, i: nat): Value
    requires IsLevel(level) && i < Width(level)
  {
    if level.Mapping? then level.entries[i].value else level.items[i]
  }

  /** Positions of the entries whose value is a mapping or a sequence. */
  function ContainerEntries(level: Value): set<int>
    requires IsLevel(level)
  {
    set i | 0 <= i < Width(level) && !ChildAt(level, i).Leaf?
  }

  /** The normalised key of mapping entry `i` under the level key. */
  function NormalizedKey(es: seq<Entry>, levelKey: Option<string>, i: int): string
    requires 0 <= i < |es|
  {
    Normalize(es[i].key, Prefix(levelKey))
  }

  /** Mapping entry `i` is a scalar whose normalised key is a legal idShort. */
  predicate KeptScalar(es: seq<Entry>, levelKey: Option<string>, i: int) {
    0 <= i < |es| && es[i].value.Leaf? && ValidIdShort(NormalizedKey(es, levelKey, i))
  }

  /** The ids of the scalar entries of a mapping that are not dropped. */
  function ScalarIds(es: seq<Entry>, levelKey: Option<string>): set<Option<string>> {
    set i | 0 <= i < |es| && KeptScalar(es, levelKey, i) :: Some(NormalizedKey(es, levelKey, i))
  }

  /** An empty level key and an absent one name a level's scalars alike. */
  lemma ScalarIdsEmptyPrefix(es: seq<Entry>)
    ensures ScalarIds(es, Some("")) == ScalarIds(es, None)
  {
    assert Prefix(Some("")) == Prefix(None);
    assert forall i :: 0 <= i < |es| ==> NormalizedKey(es, Some(""), i) == NormalizedKey(es, None, i);
  }

  /** The keys of a mapping are pairwise different, as in any Python dict. */
  predicate DistinctKeys(es: seq<Entry>) {
    forall i, j :: 0 <= i < j < |es| ==> es[i].key != es[j].key
  }

  /** Every key of a mapping is already a legal idShort. */
  predicate ValidKeys(es: seq<Entry>) {
    forall i :: 0 <= i < |es| ==> ValidIdShort(es[i].key)
  }

  /** The keys of the scalar entries of a mapping, as ids. */
  function LeafKeys(es: seq<Entry>): set<Option<string>> {
    set i | 0 <= i < |es| && es[i].value.Leaf? :: Some(es[i].key)
  }

  /** With legal keys, no scalar is dropped and none is renamed. */
  lemma ValidKeysScalarIds(es: seq<Entry>, levelKey: Option<string>)
    requires ValidKeys(es)
    ensures ScalarIds(es, levelKey) == LeafKeys(es)
  {
    forall i | 0 <= i < |es| ensures NormalizedKey(es, levelKey, i) == es[i].key {
      NormalizeKeepsValid(es[i].key, Prefix(levelKey));
    }
    assert forall i :: 0 <= i < |es| && es[i].value.Leaf? ==> KeptScalar(es, levelKey, i);
  }

  /** Appending an entry with a fresh key adds its key when it is a scalar. */
  lemma LeafKeysSnoc(es: seq<Entry>)
    requires |es| > 0 && DistinctKeys(es)
    ensures var n := |es| - 1;
            |LeafKeys(es)| == |LeafKeys(es[..n])| + (if es[n].value.Leaf? then 1 else 0)
  {
    var n := |es| - 1;
    var init := es[..n];
    forall i | 0 <= i < n ensures init[i] == es[i] { }
    assert LeafKeys(es) == LeafKeys(init) + (if es[n].value.Leaf? then {Some(es[n].key)} else {});
    assert Some(es[n].key) !in LeafKeys(init);
  }

  /** Appending an entry adds its position when it is a mapping or a sequence. */
  lemma ContainerEntriesSnoc(es: seq<Entry>)
    requires |es| > 0
    ensures var n := |es| - 1;
            |ContainerEntries(Mapping(es))| == |ContainerEntries(Mapping(es[..n]))| + (if es[n].value.Leaf? then 0 else 1)
  {
    var n := |es| - 1;
    forall i | 0 <= i < |es| ensures ChildAt(Mapping(es), i) == es[i].value { }
    forall i | 0 <= i < n ensures ChildAt(Mapping(es[..n]), i) == es[i].value {
      assert es[..n][i] == es[i];
    }
    assert ContainerEntries(Mapping(es))
             == ContainerEntries(Mapping(es[..n])) + (if es[n].value.Leaf? then {} else {n});
    assert n !in ContainerEntries(Mapping(es[..n]));
  }

  /** Each entry of a mapping with distinct keys is one scalar key or one container. */
  lemma {:induction false} LeafKeysAndContainers(es: seq<Entry>)
    requires DistinctKeys(es)
    ensures |LeafKeys(es)| + |ContainerEntries(Mapping(es))| == |es|
    decreases |es|
  {
    if es != [] {
      var n := |es| - 1;
      var init := es[..n];
      assert DistinctKeys(init) by {
        forall i | 0 <= i < n ensures init[i] == es[i] { }
      }
      LeafKeysAndContainers(init);
      LeafKeysSnoc(es);
      ContainerEntriesSnoc(es);
    }
  }

  /** When every key of a mapping is a legal idShort, no scalar is dropped or
      merged: each entry accounts for exactly one scalar id or one container. */
  lemma OneElementPerEntry(es: seq<Entry>, levelKey: Option<string>)
    requires DistinctKeys(es) && ValidKeys(es)
    ensures |ScalarIds(es, levelKey)| + |ContainerEntries(Mapping(es))| == |es|
  {
    ValidKeysScalarIds(es, levelKey);
    LeafKeysAndContainers(es);
  }

  /** Mapping entry `i` is the first kept scalar with its normalised key. */
  predicate FirstScalarWithId(es: seq<Entry>, levelKey: Option<string>, i: int) {
    && KeptScalar(es, levelKey, i)
    && forall j :: 0 <= j < i && KeptScalar(es, levelKey, j) ==>
         NormalizedKey(es, levelKey, j) != NormalizedKey(es, levelKey, i)
  }

  /** The property a scalar mapping entry stands for. */
  function ScalarProperty(es: seq<Entry>, levelKey: Option<string>, i: int): Element
    requires 0 <= i < |es| && es[i].value.Leaf?
  {
    var v := es[i].value.scalar;
    Property(Some(NormalizedKey(es, levelKey, i)), Classify(v), v)
  }

  /** The property a scalar entry under a legal key stands for: named by its
      key, typed by its value. */
  function FactProperty(entry: Entry): (p: Element)
    requires entry.value.Leaf?
    ensures p.Property? && p.id == Some(entry.key) && p.value == entry.value.scalar
  {
    Property(Some(entry.key), Classify(entry.value.scalar), entry.value.scalar)
  }

  /** Under distinct legal keys every scalar entry is the first with its id,
      and its property is named by its own key. */
  lemma ValidKeysFirstScalars(es: seq<Entry>, levelKey: Option<string>)
    requires ValidKeys(es) && DistinctKeys(es)
    ensures forall i :: 0 <= i < |es| && es[i].value.Leaf? ==>
              FirstScalarWithId(es, levelKey, i) && ScalarProperty(es, levelKey, i) == FactProperty(es[i])
  {
    forall i | 0 <= i < |es| ensures NormalizedKey(es, levelKey, i) == es[i].key {
      NormalizeKeepsValid(es[i].key, Prefix(levelKey));
    }
  }

  /** Per-entry outcomes of a mapping level: scalars go through
      `process_property`, mappings and sequences each yield one container. */
  predicate MappingBuilt(es: seq<Entry>, levelKey: Option<string>, built: seq<Option<Element>>) {
    && |built| == |es|
    && forall i :: 0 <= i < |es| ==> MappingEntryBuilt(es[i], levelKey, built[i])
  }

  predicate MappingEntryBuilt(entry: Entry, levelKey: Option<string>, outcome: Option<Element>) {
    if entry.value.Leaf? then outcome == ProcessProperty(Some(entry.key), entry.value.scalar, levelKey)
    else outcome.Some? && !outcome.value.Property?
  }

  /** Per-entry outcomes of a sequence level: every entry yields one element
      without an id, a scalar an id-less property of its own kind. */
  predicate SequenceBuilt(items: seq<Value>, built: seq<Option<Element>>) {
    && |built| == |items|
    && forall i :: 0 <= i < |items| ==> SequenceEntryBuilt(items[i], built[i])
  }

  predicate SequenceEntryBuilt(item: Value, outcome: Option<Element>) {
    && outcome.Some?
    && outcome.value.id.None?
    && (item.Leaf? ==> outcome.value == Property(None, Classify(item.scalar), item.scalar))
    && (item.Mapping? ==> outcome.value.Collection?)
    && (item.Sequence? ==> outcome.value.List?)
  }

  /** Positions whose outcome is a collection or a list. */
  function ContainerPositions(built: seq<Option<Element>>): set<int> {
    set i | 0 <= i < |built| && built[i].Some? && !built[i].value.Property?
  }

  lemma ContainerPositionsSnoc(built: seq<Option<Element>>)
    requires built != []
    ensures var n := |built| - 1;
            |ContainerPositions(built)| == |ContainerPositions(built[..n])|
              + (if built[n].Some? && !built[n].value.Property? then 1 else 0)
  {
    var n := |built| - 1;
    var init := built[..n];
    assert ContainerPositions(built) == ContainerPositions(init)
              + (if built[n].Some? && !built[n].value.Property? then {n} else {}) by {
      forall i | i in ContainerPositions(init) ensures i in ContainerPositions(built) {
        assert init[i] == built[i];
      }
      forall i | i in ContainerPositions(built) && i < n ensures i in ContainerPositions(init) {
        assert init[i] == built[i];
      }
    }
    assert n !in ContainerPositions(init);
  }

  lemma {:induction false} ContainerPositionsCount(built: seq<Option<Element>>)
    ensures |Containers(Somes(built))| == |ContainerPositions(built)|
  {
    if built != [] {
      var n := |built| - 1;
      var init := built[..n];
      ContainerPositionsCount(init);
      ContainerPositionsSnoc(built);
      match built[n]
      case None =>
      case Some(e) =>
        ContainersAppend(Somes(init), [e]);
    }
  }

  /** In a mapping level, the property ids produced are the kept scalars' ids,
      and an entry is the first with its id in one sense exactly when it is in
      the other. */
  lemma MappingBuiltIds(es: seq<Entry>, levelKey: Option<string>, built: seq<Option<Element>>)
    requires MappingBuilt(es, levelKey, built)
    ensures BuiltPropertyIds(built) == ScalarIds(es, levelKey)
    ensures ContainerPositions(built) == ContainerEntries(Mapping(es))
    ensures forall i :: FirstWithId(built, i) <==> FirstScalarWithId(es, levelKey, i)
    ensures forall i :: FirstScalarWithId(es, levelKey, i) ==> built[i] == Some(ScalarProperty(es, levelKey, i))
  {
    assert ContainerPositions(built) == ContainerEntries(Mapping(es)) by {
      forall i | 0 <= i < |es| ensures i in ContainerPositions(built) <==> i in ContainerEntries(Mapping(es)) {
        assert ChildAt(Mapping(es), i) == es[i].value;
      }
    }
    forall i | 0 <= i < |es|
      ensures (built[i].Some? && built[i].value.Property?) <==> KeptScalar(es, levelKey, i)
      ensures KeptScalar(es, levelKey, i) ==> built[i] == Some(ScalarProperty(es, levelKey, i))
    {
    }
  }

  /** A mapping level gathered with id-keyed properties: property ids are
      distinct and are exactly the kept scalars' normalised keys, one property
      per id, the first scalar with an id is the one that stays, and every
      mapping or sequence entry contributes its container. */
  lemma MappingLevelFacts(es: seq<Entry>, levelKey: Option<string>, built: seq<Option<Element>>)
    requires MappingBuilt(es, levelKey, built)
    ensures DistinctPropertyIds(Collect(built, true))
    ensures PropertyIds(Collect(built, true)) == ScalarIds(es, levelKey)
    ensures |Properties(Collect(built, true))| == |ScalarIds(es, levelKey)|
    ensures |Containers(Collect(built, true))| == |ContainerEntries(Mapping(es))|
    ensures forall p :: p in Collect(built, true) && p.Property? ==>
              exists i :: FirstScalarWithId(es, levelKey, i) && p == ScalarProperty(es, levelKey, i)
    ensures forall i :: FirstScalarWithId(es, levelKey, i) ==> ScalarProperty(es, levelKey, i) in Collect(built, true)
  {
    MappingBuiltIds(es, levelKey, built);
    CollectKeyedShape(built);
    PropertyCountIsIdCount(built);
    ContainerPositionsCount(built);
    CollectKeepsOnlyFirst(built);
    CollectKeepsFirst(built);
  }

  /** The index of the first scalar entry of a sequence. */
  function FirstLeaf(items: seq<Value>): (r: nat)
    requires exists i :: 0 <= i < |items| && items[i].Leaf?
    ensures r < |items| && items[r].Leaf?
    ensures forall j :: 0 <= j < r ==> !items[j].Leaf?
  {
    if items[0].Leaf? then 0
    else
      assert exists i :: 0 <= i < |items[1..]| && items[1..][i].Leaf? by {
        var i :| 0 <= i < |items| && items[i].Leaf?;
        assert items[1..][i - 1] == items[i];
      }
      1 + FirstLeaf(items[1..])
  }

  predicate HasLeaf(items: seq<Value>) {
    exists i :: 0 <= i < |items| && items[i].Leaf?
  }

  /** A sequence level gathered with id-keyed properties (all of them id-less,
      hence all equal): the scalars collapse into the single property of the
      first scalar, and every mapping or sequence entry keeps its container. */
  lemma SequenceLevelKeyed(items: seq<Value>, built: seq<Option<Element>>)
    requires SequenceBuilt(items, built)
    ensures |Containers(Collect(built, true))| == |ContainerEntries(Sequence(items))|
    ensures !HasLeaf(items) ==> Properties(Collect(built, true)) == []
    ensures HasLeaf(items) ==>
              var first := items[FirstLeaf(items)].scalar;
              Properties(Collect(built, true)) == [Property(None, Classify(first), first)]
  {
    CollectKeyedShape(built);
    ContainerPositionsCount(built);
    assert ContainerPositions(built) == ContainerEntries(Sequence(items));
    if HasLeaf(items) {
      SequenceKeyedFirstLeaf(items, built);
    } else {
      SequenceKeyedNoLeaf(items, built);
    }
  }

  lemma SequenceKeyedNoLeaf(items: seq<Value>, built: seq<Option<Element>>)
    requires SequenceBuilt(items, built) && !HasLeaf(items)
    ensures Properties(Collect(built, true)) == []
  {
    var r := Collect(built, true);
    CollectKeyedShape(built);
    DistinctIdsCount(r);
    assert BuiltPropertyIds(built) == {};
    assert |Properties(r)| == 0;
  }

  lemma SequenceKeyedFirstLeaf(items: seq<Value>, built: seq<Option<Element>>)
    requires SequenceBuilt(items, built) && HasLeaf(items)
    ensures var first := items[FirstLeaf(items)].scalar;
            Properties(Collect(built, true)) == [Property(None, Classify(first), first)]
  {
    var r := Collect(built, true);
    CollectKeyedShape(built);
    DistinctIdsCount(r);
    var f := FirstLeaf(items);
    assert BuiltPropertyIds(built) == {None} by {
      assert built[f].value.id == None;
    }
    assert |Properties(r)| == 1;
    var p := Properties(r)[0];
    assert p in Properties(r);
    CollectKeepsOnlyFirst(built);
    var i :| FirstWithId(built, i) && built[i] == Some(p);
    assert built[f].value.id == built[i].value.id;
    assert items[i].Leaf?;
    assert i == f;
  }

  /** A sequence level gathered without id-keyed properties: one element per
      entry, in entry order. */
  lemma SequenceLevelUnkeyed(items: seq<Value>, built: seq<Option<Element>>)
    requires SequenceBuilt(items, built)
    ensures |Collect(built, false)| == |items|
    ensures forall i :: 0 <= i < |items| ==> Collect(built, false)[i] == built[i].value
  {
    CollectUnkeyed(built);
    SomesAllPresent(built);
  }
}
