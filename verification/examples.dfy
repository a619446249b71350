/** Concrete documents run through both converters: the shapes the unit tests
    of the repository pin down, and the inputs on which the two converters
    part ways. */
module Examples {
  import opened Common
  import opened IdShort
  import opened Facts
  import opened Elements
  import opened Levels
  import opened Wire
  import ConvertUtils
  import ConvertToSm

  /** Four scalar facts under the keys key1 to key4. */
  function Keyed(a: Scalar, b: Scalar, c: Scalar, d: Scalar): seq<Entry> {
    [Entry("key1", Leaf(a)), Entry("key2", Leaf(b)), Entry("key3", Leaf(c)), Entry("key4", Leaf(d))]
  }

  /** Four facts, one of each value kind. */
  function FourFacts(): seq<Entry> {
    Keyed(Str("value1"), Int(1), Flt("5.7"), Bool(true))
  }

  lemma KeyNLegal(n: char)
    requires '1' <= n <= '4'
    ensures ValidIdShort(['k', 'e', 'y', n])
  {
    var s := ['k', 'e', 'y', n];
    assert forall i :: 0 <= i < 4 ==> IsIdChar(s[i]);
  }

  /** The keys key1 to key4 are legal and pairwise different. */
  lemma KeyedLegal(a: Scalar, b: Scalar, c: Scalar, d: Scalar)
    ensures var f := Keyed(a, b, c, d);
            && ValidKeys(f) && DistinctKeys(f)
            && forall i :: 0 <= i < |f| ==> f[i].value.Leaf?
  {
    var f := Keyed(a, b, c, d);
    KeyNLegal('1');
    KeyNLegal('2');
    KeyNLegal('3');
    KeyNLegal('4');
    assert f[0].key == ['k', 'e', 'y', '1'] && f[1].key == ['k', 'e', 'y', '2'];
    assert f[2].key == ['k', 'e', 'y', '3'] && f[3].key == ['k', 'e', 'y', '4'];
    forall i, j | 0 <= i < j < 4 ensures f[i].key != f[j].key {
      assert f[i].key[3] != f[j].key[3];
    }
  }

  lemma FourFactsLegal()
    ensures ValidKeys(FourFacts()) && DistinctKeys(FourFacts())
  {
    KeyedLegal(Str("value1"), Int(1), Flt("5.7"), Bool(true));
  }

  /** The four properties the flat four-key document stands for. */
  function FourProperties(): set<Element> {
    { Property(Some("key1"), XsString, Str("value1")),
      Property(Some("key2"), XsInteger, Int(1)),
      Property(Some("key3"), XsFloat, Flt("5.7")),
      Property(Some("key4"), XsBoolean, Bool(true)) }
  }

  lemma FourFactProperties()
    ensures forall i :: 0 <= i < 4 ==> FactProperty(FourFacts()[i]) in FourProperties()
    ensures forall p :: p in FourProperties() ==> exists i :: 0 <= i < 4 && p == FactProperty(FourFacts()[i])
  {
    var f := FourFacts();
    assert FactProperty(f[0]) == Property(Some("key1"), XsString, Str("value1"));
    assert FactProperty(f[1]) == Property(Some("key2"), XsInteger, Int(1));
    assert FactProperty(f[2]) == Property(Some("key3"), XsFloat, Flt("5.7"));
    assert FactProperty(f[3]) == Property(Some("key4"), XsBoolean, Bool(true));
  }

  /** The tags and rendered values of the four properties. */
  lemma FourPropertiesRendered()
    ensures (set p | p in FourProperties() :: ValueTypeTag(p.kind))
              == {"xs:string", "xs:integer", "xs:float", "xs:boolean"}
    ensures forall p :: p in FourProperties() ==> RenderValue(p.value) == Some(Lower(Display(p.value)))
  {
    var ps := FourProperties();
    var tags := set p | p in ps :: ValueTypeTag(p.kind);
    assert Property(Some("key1"), XsString, Str("value1")) in ps;
    assert Property(Some("key2"), XsInteger, Int(1)) in ps;
    assert Property(Some("key3"), XsFloat, Flt("5.7")) in ps;
    assert Property(Some("key4"), XsBoolean, Bool(true)) in ps;
    assert {"xs:string", "xs:integer", "xs:float", "xs:boolean"} <= tags;
    assert NoUpper("value1");
    RenderedIsLoweredDisplay(Str("value1"));
    RenderedIsLoweredDisplay(Int(1));
    RenderedIsLoweredDisplay(Bool(true));
    assert Lower("5.7") == "5.7";
  }

  /** What the unit test checks of the converted four-key document: exactly
      the four properties, their four value-type tags, and each value rendered
      as Python's lower-cased `str` of it. */
  ghost predicate FourKeysShape(els: seq<Element>) {
    && (forall e :: e in els <==> e in FourProperties())
    && (set e | e in els :: ValueTypeTag(e.kind)) == {"xs:string", "xs:integer", "xs:float", "xs:boolean"}
    && (forall e :: e in els ==> RenderValue(e.value) == Some(Lower(Display(e.value))))
  }

  /** Any sequence holding exactly the four facts' properties has that shape. */
  lemma FourShaped(facts: seq<Entry>, els: seq<Element>)
    requires facts == FourFacts()
    requires forall e :: e in els <==> exists i :: 0 <= i < |facts| && e == FactProperty(facts[i])
    ensures FourKeysShape(els)
  {
    FourFactProperties();
    FourPropertiesRendered();
    assert (set e | e in els :: ValueTypeTag(e.kind)) == (set p | p in FourProperties() :: ValueTypeTag(p.kind));
  }

  /** The flat four-key document converts into exactly four properties named
      by the keys, tagged xs:string, xs:integer, xs:float and xs:boolean. */
  lemma FlatFourKeys(facts: seq<Entry>)
    requires facts == FourFacts()
    ensures ConvertUtils.ConvertToSubmodel("test_id", facts).Ok?
    ensures var els := ConvertUtils.ConvertToSubmodel("test_id", facts).value.elements;
            |els| == 4 && FourKeysShape(els)
  {
    FourFactsLegal();
    ConvertUtils.FlatFactsConvert("test_id", facts);
    FourShaped(facts, ConvertUtils.ConvertToSubmodel("test_id", facts).value.elements);
  }

  /** The dictionary each entry of the list holds. */
  function ListEntry(): Value {
    Mapping(Keyed(Str("1"), Int(2), Flt("3.1"), Bool(false)))
  }

  lemma ListNameLegal()
    ensures ValidIdShort("list1")
  {
    assert forall i :: 0 <= i < 5 ==> IsIdChar("list1"[i]);
  }

  /** A document holding one list of two copies of a mapping converts into one
      top-level list of two copies of that mapping's collection. */
  lemma TwoMappingList(facts: seq<Entry>, key: string, m: Value)
    requires ValidIdShort(key) && m.Mapping? && ConvertToSm.ProcessDict(None, m).Ok?
    requires facts == [Entry(key, Sequence([m, m]))]
    ensures ConvertToSm.ConvertToSubmodel("test_id", facts, None, None).Ok?
    ensures var els := ConvertToSm.ConvertToSubmodel("test_id", facts, None, None).value.elements;
            && |els| == 1
            && els[0].List?
            && els[0].children == [ConvertToSm.ProcessDict(None, m).value, ConvertToSm.ProcessDict(None, m).value]
  {
    var items := [m, m];
    ConvertToSm.ListOfMappings(key, items, Some(""));
    var l := ConvertToSm.ProcessLevelElement(Some(key), Sequence(items), Some("")).value.value;
    assert l.children == [ConvertToSm.ProcessDict(None, m).value, ConvertToSm.ProcessDict(None, m).value];
    ConvertToSm.SingleEntryLevel(facts, Some(""), l);
  }

  /** What the unit test checks of the converted list document: one top-level
      SubmodelElementList whose two entries each hold four elements. */
  ghost predicate ListOfTwoShape(els: seq<Element>) {
    && |els| == 1
    && ModelTypeName(els[0]) == "SubmodelElementList"
    && |els[0].children| == 2
    && forall c :: c in els[0].children ==> c.Collection? && |c.children| == 4
  }

  /** The dictionary of the list converts into a collection of four properties. */
  lemma ListEntryConverts(m: Value)
    requires m == ListEntry()
    ensures m.Mapping? && ConvertToSm.ProcessDict(None, m).Ok?
    ensures |ConvertToSm.ProcessDict(None, m).value.children| == 4
  {
    KeyedLegal(Str("1"), Int(2), Flt("3.1"), Bool(false));
    ConvertToSm.FlatMappingConverts(None, m.entries);
  }

  /** A list named list1 of two copies of a four-element mapping has the shape the unit test checks. */
  lemma TwoFourElementMappings(facts: seq<Entry>, m: Value)
    requires m.Mapping? && ConvertToSm.ProcessDict(None, m).Ok?
    requires |ConvertToSm.ProcessDict(None, m).value.children| == 4
    requires facts == [Entry("list1", Sequence([m, m]))]
    ensures ConvertToSm.ConvertToSubmodel("test_id", facts, None, None).Ok?
    ensures ListOfTwoShape(ConvertToSm.ConvertToSubmodel("test_id", facts, None, None).value.elements)
  {
    ListNameLegal();
    TwoMappingList(facts, "list1", m);
  }

  /** One list of two four-key dictionaries converts into a single top-level
      SubmodelElementList of two collections with four properties each. */
  lemma ListOfTwoDicts(facts: seq<Entry>, m: Value)
    requires m == ListEntry() && facts == [Entry("list1", Sequence([m, m]))]
    ensures ConvertToSm.ConvertToSubmodel("test_id", facts, None, None).Ok?
    ensures ListOfTwoShape(ConvertToSm.ConvertToSubmodel("test_id", facts, None, None).value.elements)
  {
    ListEntryConverts(m);
    TwoFourElementMappings(facts, m);
  }

  /** Four nested mappings with one scalar at the bottom convert into four
      nested collections named by their keys. */
  lemma NestedCollections(facts: seq<Entry>)
    requires facts == [Entry("collection1", Mapping([Entry("collection2", Mapping([Entry("collection3",
                         Mapping([Entry("collection4", Mapping([Entry("key1", Leaf(Str("value1")))]))]))]))]))]
    ensures ConvertToSm.ConvertToSubmodel("test_id", facts, None, None)
              == Ok(Submodel("test_id", None, None,
                   [Collection(Some("collection1"), [Collection(Some("collection2"), [Collection(Some("collection3"),
                      [Collection(Some("collection4"), [Property(Some("key1"), XsString, Str("value1"))])])])])]))
  {
    KeyNLegal('1');
    var c1, c2, c3, c4 := "collection1", "collection2", "collection3", "collection4";
    forall c | c in [c1, c2, c3, c4] ensures ValidIdShort(c) {
      assert forall i :: 0 <= i < |c| ==> IsIdChar(c[i]);
    }
    FourNestedMappings(facts, c1, c2, c3, c4, "key1", Str("value1"));
  }

  /** Four mappings nested under legal keys, the innermost holding one legal
      key, become four nested collections around one property. */
  lemma FourNestedMappings(facts: seq<Entry>, c1: string, c2: string, c3: string, c4: string, k: string, v: Scalar)
    requires ValidIdShort(c1) && ValidIdShort(c2) && ValidIdShort(c3) && ValidIdShort(c4) && ValidIdShort(k)
    requires facts == [Entry(c1, Mapping([Entry(c2, Mapping([Entry(c3, Mapping([Entry(c4, Mapping([Entry(k, Leaf(v))]))]))]))]))]
    ensures ConvertToSm.ConvertToSubmodel("test_id", facts, None, None)
              == Ok(Submodel("test_id", None, None,
                   [Collection(Some(c1), [Collection(Some(c2), [Collection(Some(c3),
                      [Collection(Some(c4), [Property(Some(k), Classify(v), v)])])])])]))
  {
    var p := Property(Some(k), Classify(v), v);
    NormalizeKeepsValid(k, c4);
    var e4 := [Entry(k, Leaf(v))];
    assert ConvertToSm.ProcessLevelElement(Some(k), Leaf(v), Some(c4)) == Ok(Some(p));
    ConvertToSm.NestedCollection(c4, e4, Some(c3), p);
    var x4 := Collection(Some(c4), [p]);
    var e3 := [Entry(c4, Mapping(e4))];
    ConvertToSm.NestedCollection(c3, e3, Some(c2), x4);
    var x3 := Collection(Some(c3), [x4]);
    var e2 := [Entry(c3, Mapping(e3))];
    ConvertToSm.NestedCollection(c2, e2, Some(c1), x3);
    var x2 := Collection(Some(c2), [x3]);
    var e1 := [Entry(c2, Mapping(e2))];
    ConvertToSm.NestedCollection(c1, e1, Some(""), x2);
    var x1 := Collection(Some(c1), [x2]);
    ConvertToSm.SingleEntryLevel(facts, Some(""), x1);
  }

  /** The two converters part ways on a list of scalars: the first keeps only
      the first scalar, the second keeps one property per scalar. */
  lemma IntegerListDiffers(items: seq<Value>)
    requires items == [Leaf(Int(1)), Leaf(Int(2))]
    ensures ConvertUtils.ProcessLevelElement(Some("l"), Sequence(items), None)
              == Ok(Some(List(Some("l"), [Property(None, XsInteger, Int(1))], OfProperty(XsInteger))))
    ensures ConvertToSm.ProcessLevelElement(Some("l"), Sequence(items), None)
              == Ok(Some(List(Some("l"), [Property(None, XsInteger, Int(1)), Property(None, XsInteger, Int(2))],
                              OfProperty(XsInteger))))
  {
    assert ValidIdShort("l") by { assert IsLetter('l'); }
    ConvertUtils.ScalarListCollapses("l", items, None);
    ConvertToSm.ScalarListKept("l", items, None);
    var l := ConvertToSm.ProcessLevelElement(Some("l"), Sequence(items), None).value.value;
    assert l.children == [Property(None, XsInteger, Int(1)), Property(None, XsInteger, Int(2))];
  }

  /** A list of a string and an integer: the first converter keeps only the
      string; the second degrades both to their String text. */
  lemma MixedListDiffers(items: seq<Value>)
    requires items == [Leaf(Str("x")), Leaf(Int(1))]
    ensures ConvertUtils.ProcessLevelElement(Some("l"), Sequence(items), None)
              == Ok(Some(List(Some("l"), [Property(None, XsString, Str("x"))], OfProperty(XsString))))
    ensures ConvertToSm.ProcessLevelElement(Some("l"), Sequence(items), None)
              == Ok(Some(List(Some("l"), [Property(None, XsString, Str("x")), Property(None, XsString, Str("1"))],
                              OfProperty(XsString))))
  {
    assert ValidIdShort("l") by { assert IsLetter('l'); }
    ConvertUtils.ScalarListCollapses("l", items, None);
    ConvertToSm.ScalarListKept("l", items, None);
    assert Classify(items[1].scalar) != Classify(items[0].scalar);
    assert Display(Int(1)) == "1";
    var l := ConvertToSm.ProcessLevelElement(Some("l"), Sequence(items), None).value.value;
    assert l.children == [Property(None, XsString, Str("x")), Property(None, XsString, Str("1"))];
  }
}
