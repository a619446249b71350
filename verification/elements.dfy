/** The typed element tree the converter produces, and the construction
    checks the element library applies when an element object is created. */
module Elements {
  import opened Common
  import opened IdShort
  import opened Facts

  /** What a list declares about its children: properties of one value kind,
      or collections. */
  datatype ListType = OfProperty(valueKind: ValueKind) | OfCollection

  /** A node of the submodel tree. Ids are optional: children of a list carry none. */
  datatype Element =
    | Property(id: Option<string>, kind: ValueKind, value: Scalar)
    | Collection(id: Option<string>, children: seq<Element>)
    | List(id: Option<string>, children: seq<Element>, declared: ListType)

  datatype KeyType = AssetAdministrationShell | ConceptDescription

  datatype Key = Key(keyType: KeyType, value: string)

  datatype Reference = ExternalReference(keys: seq<Key>)

  /** The document root. */
  datatype Submodel = Submodel(
    id: string,
    parent: Option<Reference>,
    semanticId: Option<Reference>,
    elements: seq<Element>)

  /** The id check made whenever an element is created: an absent id is
      accepted, a present one must follow the idShort grammar. */
  predicate IdOk(id: Option<string>) {
    id.None? || ValidIdShort(id.value)
  }

  /** No two children carry the same present id. */
  predicate UniqueIds(children: seq<Element>) {
    forall i, j :: 0 <= i < j < |children| && children[i].id.Some? ==> children[i].id != children[j].id
  }

  /** The element-type check of a list child (constraint AASd-108). */
  predicate TypeMatches(c: Element, declared: ListType) {
    match declared
    case OfProperty(_) => c.Property?
    case OfCollection => c.Collection?
  }

  /** A child a list of the declared type accepts: the right element type and,
      for properties, the declared value kind (constraint AASd-109). */
  predicate Conforms(c: Element, declared: ListType) {
    match declared
    case OfProperty(k) => c.Property? && c.kind == k
    case OfCollection => c.Collection?
  }

  predicate ConformsBefore(cs: seq<Element>, declared: ListType, n: nat)
    requires n <= |cs|
  {
    forall j :: 0 <= j < n ==> Conforms(cs[j], declared)
  }

  predicate AllConform(cs: seq<Element>, declared: ListType) {
    forall j :: 0 <= j < |cs| ==> Conforms(cs[j], declared)
  }

  /** The first non-conforming child has the wrong element type. */
  predicate ForeignFirst(cs: seq<Element>, declared: ListType) {
    exists i :: 0 <= i < |cs| && !TypeMatches(cs[i], declared) && ConformsBefore(cs, declared, i)
  }

  /** The first non-conforming child is a property of another value kind. */
  predicate MismatchFirst(cs: seq<Element>, declared: ListType) {
    exists i :: 0 <= i < |cs| && TypeMatches(cs[i], declared) && !Conforms(cs[i], declared)
                && ConformsBefore(cs, declared, i)
  }

  /** The list checks children one by one, in order, element type before value type. */
  function FirstOffence(cs: seq<Element>, declared: ListType): (r: Option<Fault>)
    ensures r.None? <==> AllConform(cs, declared)
    ensures r == Some(TypeMismatch) <==> ForeignFirst(cs, declared)
    ensures r == Some(ValueTypeMismatch) <==> MismatchFirst(cs, declared)
    ensures r.None? || r == Some(TypeMismatch) || r == Some(ValueTypeMismatch)
  {
    if cs == [] then None
    else if !TypeMatches(cs[0], declared) then
      assert ConformsBefore(cs, declared, 0);
      assert !MismatchFirst(cs, declared) by {
        forall i | 0 < i < |cs| ensures !ConformsBefore(cs, declared, i) {
          assert !Conforms(cs[0], declared);
        }
      }
      Some(TypeMismatch)
    else if !Conforms(cs[0], declared) then
      assert ConformsBefore(cs, declared, 0);
      assert !ForeignFirst(cs, declared) by {
        forall i | 0 < i < |cs| ensures !ConformsBefore(cs, declared, i) {
          assert !Conforms(cs[0], declared);
        }
      }
      Some(ValueTypeMismatch)
    else
      var r := FirstOffence(cs[1..], declared);
      ShiftConforms(cs, declared);
      r
  }

  /** Prefix facts about `cs` follow from those about `cs[1..]` once `cs[0]` conforms. */
  lemma ShiftConforms(cs: seq<Element>, declared: ListType)
    requires |cs| > 0 && Conforms(cs[0], declared)
    ensures AllConform(cs, declared) <==> AllConform(cs[1..], declared)
    ensures ForeignFirst(cs, declared) <==> ForeignFirst(cs[1..], declared)
    ensures MismatchFirst(cs, declared) <==> MismatchFirst(cs[1..], declared)
  {
    var t := cs[1..];
    forall n | 1 <= n <= |cs|
      ensures ConformsBefore(cs, declared, n) <==> ConformsBefore(t, declared, n - 1)
    {
      if ConformsBefore(t, declared, n - 1) {
        forall j | 0 <= j < n ensures Conforms(cs[j], declared) {
          if j > 0 { assert cs[j] == t[j - 1]; }
        }
      }
      if ConformsBefore(cs, declared, n) {
        forall j | 0 <= j < n - 1 ensures Conforms(t[j], declared) {
          assert t[j] == cs[j + 1];
        }
      }
    }
    assert ConformsBefore(cs, declared, |cs|) == AllConform(cs, declared);
    assert ConformsBefore(t, declared, |t|) == AllConform(t, declared);
    if ForeignFirst(cs, declared) {
      var i :| 0 <= i < |cs| && !TypeMatches(cs[i], declared) && ConformsBefore(cs, declared, i);
      assert i > 0;
      assert t[i - 1] == cs[i];
    }
    if ForeignFirst(t, declared) {
      var i :| 0 <= i < |t| && !TypeMatches(t[i], declared) && ConformsBefore(t, declared, i);
      assert cs[i + 1] == t[i];
    }
    if MismatchFirst(cs, declared) {
      var i :| 0 <= i < |cs| && TypeMatches(cs[i], declared) && !Conforms(cs[i], declared)
               && ConformsBefore(cs, declared, i);
      assert i > 0;
      assert t[i - 1] == cs[i];
    }
    if MismatchFirst(t, declared) {
      var i :| 0 <= i < |t| && TypeMatches(t[i], declared) && !Conforms(t[i], declared)
               && ConformsBefore(t, declared, i);
      assert cs[i + 1] == t[i];
    }
  }

  /** Creating a Property: only the id is checked. */
  function MakeProperty(id: Option<string>, kind: ValueKind, value: Scalar): (r: Result<Element>)
    ensures r.Ok? <==> IdOk(id)
    ensures r.Ok? ==> r.value.Property? && r.value.id == id && r.value.kind == kind && r.value.value == value
    ensures r.Err? ==> r.fault == InvalidIdShort
  {
    if IdOk(id) then Ok(Property(id, kind, value)) else Err(InvalidIdShort)
  }

  /** Creating a Collection: its own id first, then its children's ids must be
      unique among themselves. */
  function MakeCollection(id: Option<string>, children: seq<Element>): (r: Result<Element>)
    ensures r.Ok? <==> IdOk(id) && UniqueIds(children)
    ensures r.Ok? ==> r.value.Collection? && r.value.id == id && r.value.children == children
    ensures !IdOk(id) ==> r == Err(InvalidIdShort)
    ensures IdOk(id) && !UniqueIds(children) ==> r == Err(DuplicateIdShort)
  {
    if !IdOk(id) then Err(InvalidIdShort)
    else if !UniqueIds(children) then Err(DuplicateIdShort)
    else Ok(Collection(id, children))
  }

  /** Creating a List: its own id first, then every child in order against the
      declared type. */
  function MakeList(id: Option<string>, children: seq<Element>, declared: ListType): (r: Result<Element>)
    ensures r.Ok? <==> IdOk(id) && AllConform(children, declared)
    ensures r.Ok? ==> r.value.List? && r.value.id == id && r.value.children == children
                      && r.value.declared == declared
    ensures !IdOk(id) ==> r == Err(InvalidIdShort)
    ensures IdOk(id) ==> (r == Err(TypeMismatch) <==> ForeignFirst(children, declared))
    ensures IdOk(id) ==> (r == Err(ValueTypeMismatch) <==> MismatchFirst(children, declared))
    ensures IdOk(id) && r.Err? ==> r.fault == TypeMismatch || r.fault == ValueTypeMismatch
  {
    if !IdOk(id) then Err(InvalidIdShort)
    else match FirstOffence(children, declared)
      case None => Ok(List(id, children, declared))
      case Some(f) => Err(f)
  }

  /** Python's `str(e.value)`: the display text of a property's value. The text
      of a container's value is not modelled and is left empty. */
  function ElementText(e: Element): string {
    match e
    case Property(_, _, v) => Display(v)
    case _ => ""
  }

  /** The properties among `es`, in order. */
  function Properties(es: seq<Element>): (r: seq<Element>)
    ensures |r| <= |es|
    ensures forall e :: e in r <==> e in es && e.Property?
  {
    if es == [] then []
    else (if es[0].Property? then [es[0]] else []) + Properties(es[1..])
  }

  /** The collections and lists among `es`, in order. */
  function Containers(es: seq<Element>): (r: seq<Element>)
    ensures |r| <= |es|
    ensures forall e :: e in r <==> e in es && !e.Property?
  {
    if es == [] then []
    else (if !es[0].Property? then [es[0]] else []) + Containers(es[1..])
  }

  /** The ids of the properties among `es`. */
  function PropertyIds(es: seq<Element>): set<Option<string>> {
    set e | e in es && e.Property? :: e.id
  }
}
