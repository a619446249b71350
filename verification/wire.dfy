/** The parts of the JSON output the converters rely on: the `modelType` name
    of each element, the `xs:*` tag of a value kind, and the text a property
    value is rendered as. The rest of the encoder belongs to the element
    library and is not modelled. */
module Wire {
  import opened Common
  import opened Facts
  import opened Elements

  /** The `modelType` name of an element. */
  function ModelTypeName(e: Element): (name: string)
    ensures e.Property? <==> name == "Property"
    ensures e.Collection? <==> name == "SubmodelElementCollection"
    ensures e.List? <==> name == "SubmodelElementList"
  {
    match e
    case Property(_, _, _) => "Property"
    case Collection(_, _) => "SubmodelElementCollection"
    case List(_, _, _) => "SubmodelElementList"
  }

  /** The `valueType` tag of a value kind. */
  function ValueTypeTag(k: ValueKind): string {
    match k
    case XsBoolean => "xs:boolean"
    case XsInteger => "xs:integer"
    case XsFloat => "xs:float"
    case XsString => "xs:string"
  }

  /** Reads a `valueType` tag back: the inverse of `ValueTypeTag`; a tag no
      kind renders to gives nothing. */
  function KindOfTag(tag: string): (k: Option<ValueKind>)
    ensures k.Some? ==> ValueTypeTag(k.value) == tag
    ensures k.None? ==> forall j :: ValueTypeTag(j) != tag
  {
    if tag == "xs:boolean" then Some(XsBoolean)
    else if tag == "xs:integer" then Some(XsInteger)
    else if tag == "xs:float" then Some(XsFloat)
    else if tag == "xs:string" then Some(XsString)
    else None
  }

  function LowerChar(c: char): (d: char)
    ensures 'A' <= c <= 'Z' ==> 'a' <= d <= 'z'
    ensures !('A' <= c <= 'Z') ==> d == c
  {
    if 'A' <= c <= 'Z' then (c as int - 'A' as int + 'a' as int) as char else c
  }

  /** Python's `str.lower()` restricted to ASCII letters. */
  function Lower(s: string): (r: string)
    ensures |r| == |s|
    ensures forall i :: 0 <= i < |s| ==> r[i] == LowerChar(s[i])
  {
    seq(|s|, i requires 0 <= i < |s| => LowerChar(s[i]))
  }

  predicate NoUpper(s: string) {
    forall i :: 0 <= i < |s| ==> !('A' <= s[i] <= 'Z')
  }

  /** The `value` text of a property; an absent value renders nothing. A
      boolean is written in lower case, an integer in decimal. */
  function RenderValue(v: Scalar): (r: Option<string>)
    ensures r.None? <==> v.Null?
  {
    match v
    case Null => None
    case Bool(b) => Some(if b then "true" else "false")
    case Int(i) => Some(IntToString(i))
    case Flt(repr) => Some(repr)
    case Str(s) => Some(s)
  }

  /** A rendered boolean, integer or upper-case-free string is Python's
      `str(v).lower()`. */
  lemma RenderedIsLoweredDisplay(v: Scalar)
    requires v.Bool? || v.Int? || (v.Str? && NoUpper(v.s))
    ensures RenderValue(v) == Some(Lower(Display(v)))
  {
    var d := Display(v);
    assert NoUpper(d) ==> Lower(d) == d;
    match v
    case Bool(b) =>
      assert Lower("True") == "true" && Lower("False") == "false";
    case Int(i) =>
      assert NoUpper(d);
    case Str(s) =>
  }
}
