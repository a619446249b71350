/** The Python `set` a level's elements are gathered in. A `PropertySetElement`
    hashes and compares by id only, so a property whose id is already held by
    a property in the set is not added again (the first one stays); every
    other element is a distinct object and is always added. The model keeps
    the set as a sequence in insertion order. */
module ElementSet {
  import opened Common
  import opened Elements

  predicate HasPropertyWithId(s: seq<Element>, id: Option<string>) {
    exists i :: 0 <= i < |s| && s[i].Property? && s[i].id == id
  }

  /** `set.add(e)`; `byId` says whether properties are `PropertySetElement`s. */
  function Add(s: seq<Element>, e: Element, byId: bool): (r: seq<Element>)
    ensures forall x :: x in s ==> x in r
    ensures forall x :: x in r ==> x in s || x == e
  {
    if byId && e.Property? && HasPropertyWithId(s, e.id) then s else s + [e]
  }

  /** Adds, in order, every element a level's entries produced (`None` is a
      dropped entry). */
  function Collect(built: seq<Option<Element>>, byId: bool): (r: seq<Element>)
    ensures forall x :: x in r ==> exists i :: 0 <= i < |built| && built[i] == Some(x)
  {
    if built == [] then []
    else
      var last := built[|built| - 1];
      var s := Collect(built[..|built| - 1], byId);
      match last
      case None => s
      case Some(e) => Add(s, e, byId)
  }

  /** The produced elements, dropped entries left out. */
  function Somes(built: seq<Option<Element>>): seq<Element> {
    if built == [] then []
    else
      var s := Somes(built[..|built| - 1]);
      match built[|built| - 1]
      case None => s
      case Some(e) => s + [e]
  }

  /** Property ids the entries produced. */
  function BuiltPropertyIds(built: seq<Option<Element>>): set<Option<string>> {
    set i | 0 <= i < |built| && built[i].Some? && built[i].value.Property? :: built[i].value.id
  }

  /** Entry `i` produced a property and no earlier entry produced a property with its id. */
  predicate FirstWithId(built: seq<Option<Element>>, i: int) {
    && 0 <= i < |built| && built[i].Some? && built[i].value.Property?
    && forall j :: 0 <= j < i && built[j].Some? && built[j].value.Property? ==>
         built[j].value.id != built[i].value.id
  }

  predicate DistinctPropertyIds(s: seq<Element>) {
    forall i, j :: 0 <= i < j < |s| && s[i].Property? && s[j].Property? ==> s[i].id != s[j].id
  }

  /** Without id-keyed properties nothing is ever merged: the set holds every
      produced element. */
  lemma {:induction false} CollectUnkeyed(built: seq<Option<Element>>)
    ensures Collect(built, false) == Somes(built)
  {
    if built != [] {
      CollectUnkeyed(built[..|built| - 1]);
    }
  }

  /** When no entry was dropped, the produced elements line up with the entries. */
  lemma {:induction false} SomesAllPresent(built: seq<Option<Element>>)
    requires forall i :: 0 <= i < |built| ==> built[i].Some?
    ensures |Somes(built)| == |built|
    ensures forall i :: 0 <= i < |built| ==> Somes(built)[i] == built[i].value
  {
    if built != [] {
      SomesAllPresent(built[..|built| - 1]);
    }
  }

  lemma {:induction false} ContainersAppend(a: seq<Element>, b: seq<Element>)
    ensures Containers(a + b) == Containers(a) + Containers(b)
  {
    if a != [] {
      assert (a + b)[1..] == a[1..] + b;
      ContainersAppend(a[1..], b);
    } else {
      assert a + b == b;
    }
  }

  lemma {:induction false} PropertiesAppend(a: seq<Element>, b: seq<Element>)
    ensures Properties(a + b) == Properties(a) + Properties(b)
  {
    if a != [] {
      assert (a + b)[1..] == a[1..] + b;
      PropertiesAppend(a[1..], b);
    } else {
      assert a + b == b;
    }
  }

  /** A sequence without containers holds only properties. */
  lemma NoContainers(es: seq<Element>)
    requires |Containers(es)| == 0
    ensures forall e :: e in es ==> e.Property?
    ensures |Properties(es)| == |es|
  {
    forall e | e in es ensures e.Property? {
      assert e !in Containers(es);
    }
    PropertiesAll(es);
  }

  /** Filtering properties out of a sequence of properties keeps it whole. */
  lemma {:induction false} PropertiesAll(es: seq<Element>)
    requires forall e :: e in es ==> e.Property?
    ensures Properties(es) == es
  {
    if es != [] {
      assert es[0] in es;
      assert forall e :: e in es[1..] ==> e in es;
      PropertiesAll(es[1..]);
    }
  }

  /** Among properties only, distinct property ids are unique ids. */
  lemma DistinctPropertiesUnique(es: seq<Element>)
    requires DistinctPropertyIds(es) && forall e :: e in es ==> e.Property?
    ensures UniqueIds(es)
  {
    forall i, j | 0 <= i < j < |es| && es[i].id.Some? ensures es[i].id != es[j].id {
      assert es[i] in es && es[j] in es;
    }
  }

  /** Every element is either a property or a container. */
  lemma {:induction false} PropertiesAndContainers(es: seq<Element>)
    ensures |Properties(es)| + |Containers(es)| == |es|
  {
    if es != [] {
      PropertiesAndContainers(es[1..]);
    }
  }

  lemma PropertyIdsCons(s: seq<Element>)
    requires s != []
    ensures PropertyIds(s) == (if s[0].Property? then {s[0].id} else {}) + PropertyIds(s[1..])
  {
    var t := s[1..];
    forall e | e in s && e.Property?
      ensures e.id in (if s[0].Property? then {s[0].id} else {}) + PropertyIds(t)
    {
      if e != s[0] {
        var k :| 0 <= k < |s| && s[k] == e;
        assert t[k - 1] == e;
      }
    }
  }

  lemma DistinctTail(s: seq<Element>)
    requires s != [] && DistinctPropertyIds(s)
    ensures DistinctPropertyIds(s[1..])
    ensures s[0].Property? ==> s[0].id !in PropertyIds(s[1..])
  {
    var t := s[1..];
    forall i, j | 0 <= i < j < |t| && t[i].Property? && t[j].Property?
      ensures t[i].id != t[j].id
    {
      assert t[i] == s[i + 1] && t[j] == s[j + 1];
    }
    if s[0].Property? {
      forall e | e in t && e.Property? ensures e.id != s[0].id {
        var k :| 0 <= k < |t| && t[k] == e;
        assert s[k + 1] == e;
      }
    }
  }

  /** With distinct property ids, the number of properties is the number of ids. */
  lemma {:induction false} DistinctIdsCount(s: seq<Element>)
    requires DistinctPropertyIds(s)
    ensures |Properties(s)| == |PropertyIds(s)|
  {
    if s != [] {
      DistinctTail(s);
      PropertyIdsCons(s);
      DistinctIdsCount(s[1..]);
    }
  }

  /** One `add` with id-keyed properties keeps property ids distinct, adds the
      new id, and appends a container. */
  lemma AddKeyed(s: seq<Element>, e: Element)
    ensures DistinctPropertyIds(s) ==> DistinctPropertyIds(Add(s, e, true))
    ensures PropertyIds(Add(s, e, true)) == PropertyIds(s) + (if e.Property? then {e.id} else {})
    ensures Containers(Add(s, e, true)) == Containers(s) + Containers([e])
  {
    var r := Add(s, e, true);
    if e.Property? && HasPropertyWithId(s, e.id) {
      var k :| 0 <= k < |s| && s[k].Property? && s[k].id == e.id;
      assert s[k] in s;
    } else {
      ContainersAppend(s, [e]);
      assert PropertyIds(r) == PropertyIds(s) + (if e.Property? then {e.id} else {}) by {
        forall x | x in r && x.Property? ensures x.id in PropertyIds(s) + (if e.Property? then {e.id} else {}) {
          if x != e { assert x in s; }
        }
      }
      if DistinctPropertyIds(s) {
        forall i, j | 0 <= i < j < |r| && r[i].Property? && r[j].Property?
          ensures r[i].id != r[j].id
        {
          if j == |s| {
            assert r[i] == s[i];
          } else {
            assert r[i] == s[i] && r[j] == s[j];
          }
        }
      }
    }
  }

  /** The ids produced by all entries are those of all but the last, plus the last's. */
  lemma BuiltPropertyIdsLast(built: seq<Option<Element>>)
    requires built != []
    ensures var last := built[|built| - 1];
            BuiltPropertyIds(built) == BuiltPropertyIds(built[..|built| - 1])
              + (if last.Some? && last.value.Property? then {last.value.id} else {})
  {
    var init := built[..|built| - 1];
    var last := built[|built| - 1];
    forall x | x in BuiltPropertyIds(built)
      ensures x in BuiltPropertyIds(init) + (if last.Some? && last.value.Property? then {last.value.id} else {})
    {
      var i :| 0 <= i < |built| && built[i].Some? && built[i].value.Property? && built[i].value.id == x;
      if i < |init| { assert init[i] == built[i]; }
    }
    forall x | x in BuiltPropertyIds(init) ensures x in BuiltPropertyIds(built) {
      var i :| 0 <= i < |init| && init[i].Some? && init[i].value.Property? && init[i].value.id == x;
      assert init[i] == built[i];
    }
  }

  /** Gathering with id-keyed properties: property ids end up distinct, every
      produced id is present, and every collection and list is kept, in order. */
  lemma {:induction false} CollectKeyedShape(built: seq<Option<Element>>)
    ensures DistinctPropertyIds(Collect(built, true))
    ensures PropertyIds(Collect(built, true)) == BuiltPropertyIds(built)
    ensures Containers(Collect(built, true)) == Containers(Somes(built))
  {
    if built == [] {
      assert BuiltPropertyIds(built) == {};
    } else {
      var init := built[..|built| - 1];
      CollectKeyedShape(init);
      BuiltPropertyIdsLast(built);
      match built[|built| - 1]
      case None =>
      case Some(e) =>
        AddKeyed(Collect(init, true), e);
        ContainersAppend(Somes(init), [e]);
    }
  }

  /** Whether an entry is the first with its id does not depend on later entries. */
  lemma FirstWithIdPrefix(built: seq<Option<Element>>, n: nat)
    requires n <= |built|
    ensures forall i :: 0 <= i < n ==> (FirstWithId(built[..n], i) <==> FirstWithId(built, i))
  {
    var init := built[..n];
    forall i | 0 <= i < n ensures FirstWithId(init, i) <==> FirstWithId(built, i) {
      assert init[i] == built[i];
      assert forall j :: 0 <= j < i ==> init[j] == built[j];
    }
  }

  /** The last entry's property is the first with its id exactly when the set
      gathered so far holds no property with that id. */
  lemma LastIsFirstIffNew(built: seq<Option<Element>>)
    requires built != [] && built[|built| - 1].Some? && built[|built| - 1].value.Property?
    ensures var e := built[|built| - 1].value;
            FirstWithId(built, |built| - 1) <==> !HasPropertyWithId(Collect(built[..|built| - 1], true), e.id)
  {
    var n := |built| - 1;
    var init := built[..n];
    var e := built[n].value;
    HasIdIffBuilt(init, e.id);
    assert FirstWithId(built, n) <==> e.id !in BuiltPropertyIds(init) by {
      if e.id in BuiltPropertyIds(init) {
        var j :| 0 <= j < |init| && init[j].Some? && init[j].value.Property? && init[j].value.id == e.id;
        assert built[j] == init[j];
      } else {
        forall j | 0 <= j < n && built[j].Some? && built[j].value.Property?
          ensures built[j].value.id != e.id
        {
          assert init[j] == built[j];
        }
      }
    }
  }

  /** The set holds a property with a given id exactly when some entry produced one. */
  lemma HasIdIffBuilt(built: seq<Option<Element>>, id: Option<string>)
    ensures HasPropertyWithId(Collect(built, true), id) <==> id in BuiltPropertyIds(built)
  {
    var s := Collect(built, true);
    CollectKeyedShape(built);
    if HasPropertyWithId(s, id) {
      var k :| 0 <= k < |s| && s[k].Property? && s[k].id == id;
      assert s[k] in s;
    } else {
      forall x | x in s && x.Property? ensures x.id != id {
        var k :| 0 <= k < |s| && s[k] == x;
      }
    }
  }

  /** Every property the set keeps is the first one produced with its id. */
  lemma {:induction false} CollectKeepsOnlyFirst(built: seq<Option<Element>>)
    ensures forall e :: e in Collect(built, true) && e.Property? ==>
              exists i :: FirstWithId(built, i) && built[i] == Some(e)
  {
    if built != [] {
      var n := |built| - 1;
      var init := built[..n];
      CollectKeepsOnlyFirst(init);
      FirstWithIdPrefix(built, n);
      var s := Collect(init, true);
      forall x | x in Collect(built, true) && x.Property?
        ensures exists i :: FirstWithId(built, i) && built[i] == Some(x)
      {
        if x in s {
          var i :| FirstWithId(init, i) && init[i] == Some(x);
          assert built[i] == init[i];
        } else {
          assert built[n] == Some(x);
          LastIsFirstIffNew(built);
          assert FirstWithId(built, n);
        }
      }
    }
  }

  /** The first property produced with an id is kept: later `add`s of that id
      are no-ops and do not replace it. */
  lemma {:induction false} CollectKeepsFirst(built: seq<Option<Element>>)
    ensures forall i :: FirstWithId(built, i) ==> built[i].value in Collect(built, true)
  {
    if built != [] {
      var n := |built| - 1;
      var init := built[..n];
      CollectKeepsFirst(init);
      FirstWithIdPrefix(built, n);
      forall i | FirstWithId(built, i) ensures built[i].value in Collect(built, true) {
        if i < n {
          assert init[i] == built[i];
        } else {
          LastIsFirstIffNew(built);
        }
      }
    }
  }

  /** Gathering with id-keyed properties keeps one property per produced id. */
  lemma PropertyCountIsIdCount(built: seq<Option<Element>>)
    ensures |Properties(Collect(built, true))| == |BuiltPropertyIds(built)|
  {
    CollectKeyedShape(built);
    DistinctIdsCount(Collect(built, true));
  }
}
