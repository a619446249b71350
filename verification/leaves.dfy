/** `process_property`: builds the Property for a scalar entry, or drops the
    entry. Both converters carry the same code. */
module Leaves {
  import opened Common
  import opened IdShort
  import opened Facts
  import opened Elements

  /** The fallback prefix a level passes down: an absent level key is the empty prefix. */
  function Prefix(levelKey: Option<string>): string {
    if levelKey.None? then "" else levelKey.value
  }

  /** Classifies the value, normalises the key against the level key and creates
      the property. An empty id drops the entry; an id the element library
      rejects is reported and the entry is dropped as well. */
  function ProcessProperty(key: Option<string>, value: Scalar, levelKey: Option<string>): (r: Option<Element>)
    ensures r.Some? ==> r.value.Property? && r.value.kind == Classify(value) && r.value.value == value
    // an entry without a key (a list entry) always yields an id-less property
    ensures key.None? ==> r == Some(Property(None, Classify(value), value))
    // a keyed entry is kept exactly when its normalised key is a legal idShort ...
    ensures key.Some? ==> (r.Some? <==> ValidIdShort(Normalize(key.value, Prefix(levelKey))))
    // ... and then carries that normalised key as its id
    ensures key.Some? && r.Some? ==> r.value.id == Some(Normalize(key.value, Prefix(levelKey)))
  {
    var kind := Classify(value);
    var id := GetIdShort(key, levelKey);
    if id == Some("") then None
    else
      match MakeProperty(id, kind, value)
      case Ok(p) => Some(p)
      case Err(_) => None
  }

  /** A keyed scalar whose normalised key is empty is dropped, without error. */
  lemma EmptyIdDropped(key: string, value: Scalar, levelKey: Option<string>)
    requires Normalize(key, Prefix(levelKey)) == ""
    ensures ProcessProperty(Some(key), value, levelKey).None?
  {
  }

  /** A keyed scalar that needs the fallback prefix survives exactly when the
      raw enclosing key is itself a legal idShort. */
  lemma PrefixedKeptIffPrefixLegal(key: string, value: Scalar, levelKey: string)
    requires |Sanitize(key)| > 0 && !IsLetter(Sanitize(key)[0]) && levelKey != ""
    ensures ProcessProperty(Some(key), value, Some(levelKey)).Some? <==> ValidIdShort(levelKey)
  {
    PrefixedValidIffPrefixValid(key, levelKey);
  }
}
